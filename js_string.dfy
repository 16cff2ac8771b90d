/**
 * The two pieces of JavaScript string semantics the core relies on:
 * `String.prototype.trim` and the truthiness of an optional string.
 */
module JsString {
  import opened Wrappers

  /**
   * The characters `trim` strips: the ECMAScript WhiteSpace set (tab,
   * vertical tab, form feed, space, no-break space, the zero width no-break
   * space and the other space separators) and the LineTerminator set
   * (line feed, carriage return, line and paragraph separators).
   */
  predicate IsTrimmable(c: char) {
    || c == '\t' || c == '\n' || c == '\U{000B}' || c == '\U{000C}' || c == '\r'
    || c == ' ' || c == '\U{00A0}' || c == '\U{1680}'
    || ('\U{2000}' <= c <= '\U{200A}')
    || c == '\U{2028}' || c == '\U{2029}' || c == '\U{202F}' || c == '\U{205F}'
    || c == '\U{3000}' || c == '\U{FEFF}'
  }

  /** A string made only of trimmable characters (the empty string included). */
  ghost predicate IsBlank(s: string) {
    forall i :: 0 <= i < |s| ==> IsTrimmable(s[i])
  }

  /** How many trimmable characters `s` starts with. */
  function LeadingTrimmable(s: string): (k: nat)
    ensures k <= |s|
    decreases |s|
  {
    if s != [] && IsTrimmable(s[0]) then 1 + LeadingTrimmable(s[1..]) else 0
  }

  /** How many trimmable characters `s` ends with. */
  function TrailingTrimmable(s: string): (k: nat)
    ensures k <= |s|
    decreases |s|
  {
    if s != [] && IsTrimmable(s[|s| - 1]) then 1 + TrailingTrimmable(s[..|s| - 1]) else 0
  }

  /** The leading run is all trimmable, and the character after it is not. */
  lemma {:induction false} LeadingTrimmableSpec(s: string)
    ensures forall i :: 0 <= i < LeadingTrimmable(s) ==> IsTrimmable(s[i])
    ensures LeadingTrimmable(s) < |s| ==> !IsTrimmable(s[LeadingTrimmable(s)])
    decreases |s|
  {
    if s != [] && IsTrimmable(s[0]) {
      LeadingTrimmableSpec(s[1..]);
      assert forall i :: 1 <= i < |s| ==> s[i] == s[1..][i - 1];
    }
  }

  /** The trailing run is all trimmable, and the character before it is not. */
  lemma {:induction false} TrailingTrimmableSpec(s: string)
    ensures forall i :: |s| - TrailingTrimmable(s) <= i < |s| ==> IsTrimmable(s[i])
    ensures TrailingTrimmable(s) < |s| ==> !IsTrimmable(s[|s| - 1 - TrailingTrimmable(s)])
    decreases |s|
  {
    if s != [] && IsTrimmable(s[|s| - 1]) {
      TrailingTrimmableSpec(s[..|s| - 1]);
      assert forall i :: 0 <= i < |s| - 1 ==> s[i] == s[..|s| - 1][i];
    }
  }

  /**
   * JavaScript's string trim: the slice of `s` left once its leading and
   * trailing trimmable characters are gone.
   */
  function Trim(s: string): (r: string)
    ensures |r| <= |s|
  {
    var t := s[LeadingTrimmable(s)..];
    t[..|t| - TrailingTrimmable(t)]
  }

  /** `trim` keeps a slice of `s` and cuts off only trimmable characters. */
  lemma TrimSlice(s: string)
    ensures var a, r := LeadingTrimmable(s), Trim(s);
      a + |r| <= |s| && r == s[a..a + |r|] && IsBlank(s[..a]) && IsBlank(s[a + |r|..])
  {
    var a := LeadingTrimmable(s);
    var t := s[a..];
    var r := Trim(s);
    assert r == s[a..a + |r|];
    assert IsBlank(s[..a]) by {
      LeadingTrimmableSpec(s);
      forall i | 0 <= i < a ensures IsTrimmable(s[..a][i]) {
        assert s[..a][i] == s[i];
      }
    }
    var rest := s[a + |r|..];
    assert IsBlank(rest) by {
      TrailingTrimmableSpec(t);
      forall i | 0 <= i < |rest| ensures IsTrimmable(rest[i]) {
        assert rest[i] == t[|r| + i];
      }
    }
  }

  /** The result of `trim` neither starts nor ends with a trimmable character. */
  lemma TrimEnds(s: string)
    ensures var r := Trim(s); r == [] || (!IsTrimmable(r[0]) && !IsTrimmable(r[|r| - 1]))
  {
    var a := LeadingTrimmable(s);
    var t := s[a..];
    var r := Trim(s);
    LeadingTrimmableSpec(s);
    TrailingTrimmableSpec(t);
    if r != [] {
      assert r[0] == s[a];
      assert r[|r| - 1] == t[|t| - 1 - TrailingTrimmable(t)];
    }
  }

  /** A string with a character that is not trimmable keeps it after `trim`. */
  lemma TrimKeepsFirstVisible(s: string)
    requires LeadingTrimmable(s) < |s|
    ensures Trim(s) != []
  {
    var a := LeadingTrimmable(s);
    var t := s[a..];
    LeadingTrimmableSpec(s);
    TrailingTrimmableSpec(t);
    assert t[0] == s[a];
    assert !IsTrimmable(t[0]);
  }

  /** `trim` gives the empty string exactly when `s` is blank. */
  lemma TrimEmptyIffBlank(s: string)
    ensures Trim(s) == [] <==> IsBlank(s)
  {
    LeadingTrimmableSpec(s);
    if LeadingTrimmable(s) < |s| {
      TrimKeepsFirstVisible(s);
    }
  }

  /** JavaScript truthiness of an optional string: present and not "". */
  predicate Truthy(o: Option<string>) {
    o.Some? && o.value != ""
  }

  /** A string whose trimmed form is truthy is itself non-empty (and so truthy). */
  lemma TrimmedNonEmptyIsTruthy(s: string)
    requires Trim(s) != ""
    ensures Truthy(Some(s))
  {
    TrimSlice(s);
  }
}
