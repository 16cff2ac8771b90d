/**
 * The public formations catalog: the list read from local storage and the
 * card shown for each formation.
 */
module FormationsSection {
  import opened Wrappers
  import opened JsString
  import Storage
  import AdminPage

  /** A formation as the catalog reads it: the metadata and gradient are optional. */
  datatype Formation = Formation(
    id: string,
    title: string,
    description: string,
    duration: Option<string>,
    students: Option<string>,
    modules: Option<string>,
    gradient: Option<string>)

  /** The card background used when a formation has no gradient of its own. */
  const DefaultGradient := "from-gold/20 to-gold/5"

  /** The three stat lines a card can show, in display order. */
  datatype StatKind = DurationStat | StudentsStat | ModulesStat

  /** One stat line: which stat, and the text shown. */
  datatype StatLine = StatLine(kind: StatKind, text: string)

  /** What a card displays; `stats` is None when the stats block is absent. */
  datatype Card = Card(title: string, description: string, gradient: string, stats: Option<seq<StatLine>>)

  /** Display position of a stat kind. */
  function Rank(k: StatKind): nat {
    match k
    case DurationStat => 0
    case StudentsStat => 1
    case ModulesStat => 2
  }

  /** The unit text shown after a stat's value. */
  function Suffix(k: StatKind): string {
    match k
    case DurationStat => " mois"
    case StudentsStat => " places"
    case ModulesStat => " modules"
  }

  /** The formation field a stat kind shows. */
  function Field(f: Formation, k: StatKind): Option<string> {
    match k
    case DurationStat => f.duration
    case StudentsStat => f.students
    case ModulesStat => f.modules
  }

  /** The line of kind `k` when its field is truthy, nothing otherwise. */
  function StatLineFor(f: Formation, k: StatKind): seq<StatLine> {
    if Truthy(Field(f, k)) then [StatLine(k, Field(f, k).value + Suffix(k))] else []
  }

  /** The stat lines inside the stats block, in display order. */
  function StatLines(f: Formation): seq<StatLine> {
    StatLineFor(f, DurationStat) + StatLineFor(f, StudentsStat) + StatLineFor(f, ModulesStat)
  }

  /** The condition the stats block is shown under. */
  predicate ShowsStats(f: Formation) {
    Truthy(f.duration) || Truthy(f.students) || Truthy(f.modules)
  }

  /** The stat line of kind `k` is shown iff the field it shows is truthy. */
  lemma StatLineShownIff(f: Formation, k: StatKind)
    ensures (exists i :: 0 <= i < |StatLines(f)| && StatLines(f)[i].kind == k) <==> Truthy(Field(f, k))
  {
    var a, b, c := StatLineFor(f, DurationStat), StatLineFor(f, StudentsStat), StatLineFor(f, ModulesStat);
    var r := StatLines(f);
    if Truthy(Field(f, k)) {
      var i := match k case DurationStat => 0 case StudentsStat => |a| case ModulesStat => |a| + |b|;
      assert r[i].kind == k;
    } else {
      forall i | 0 <= i < |r| ensures r[i].kind != k {
        StatLineAt(f, i);
      }
    }
  }

  /** Where a stat line of the block comes from: its own truthy field. */
  lemma StatLineAt(f: Formation, i: int)
    requires 0 <= i < |StatLines(f)|
    ensures var l := StatLines(f)[i];
      Truthy(Field(f, l.kind)) && l.text == Field(f, l.kind).value + Suffix(l.kind)
  {
    var a, b, c := StatLineFor(f, DurationStat), StatLineFor(f, StudentsStat), StatLineFor(f, ModulesStat);
    var r := StatLines(f);
    if i < |a| {
      assert r[i] == a[i];
    } else if i < |a| + |b| {
      assert r[i] == b[i - |a|];
    } else {
      assert r[i] == c[i - |a| - |b|];
    }
  }

  /** The lines come in duration, students, modules order, each kind at most once. */
  lemma StatLinesOrdered(f: Formation, i: int, j: int)
    requires 0 <= i < j < |StatLines(f)|
    ensures Rank(StatLines(f)[i].kind) < Rank(StatLines(f)[j].kind)
  {
    var a, b, c := StatLineFor(f, DurationStat), StatLineFor(f, StudentsStat), StatLineFor(f, ModulesStat);
    var r := StatLines(f);
    assert forall k :: 0 <= k < |r| ==>
      r[k] == if k < |a| then a[k] else if k < |a| + |b| then b[k - |a|] else c[k - |a| - |b|];
  }

  /** The stats block appears exactly when it has at least one line. */
  lemma ShowsStatsIffLines(f: Formation)
    ensures ShowsStats(f) <==> StatLines(f) != []
  {
  }

  /** The card background: the formation's own gradient when truthy, else the default. */
  function Gradient(f: Formation): (g: string)
    ensures Truthy(f.gradient) ==> g == f.gradient.value
    ensures !Truthy(f.gradient) ==> g == DefaultGradient
    ensures g != ""
  {
    if Truthy(f.gradient) then f.gradient.value else DefaultGradient
  }

  /** The card for one formation. */
  function CardFor(f: Formation): (c: Card)
    ensures c.title == f.title && c.description == f.description
    ensures c.gradient == Gradient(f)
    ensures c.stats.Some? <==> ShowsStats(f)
    ensures c.stats.Some? ==> c.stats.value == StatLines(f) && c.stats.value != []
  {
    Card(f.title, f.description, Gradient(f), if ShowsStats(f) then Some(StatLines(f)) else None)
  }

  /** The catalog grid: one card per formation, in list order. */
  function Cards(fs: seq<Formation>): (cs: seq<Card>)
    ensures |cs| == |fs|
    ensures forall i :: 0 <= i < |fs| ==> cs[i] == CardFor(fs[i])
  {
    if fs == [] then [] else [CardFor(fs[0])] + Cards(fs[1..])
  }

  /**
   * The load effect: the stored list when something is stored, the empty
   * list otherwise. The list shown before plays no part.
   */
  function FetchFormations(stored: Option<seq<Formation>>): (shown: seq<Formation>)
    ensures stored.None? ==> shown == []
    ensures stored.Some? ==> shown == stored.value
  {
    match stored
    case None => []
    case Some(fs) => fs
  }

  /**
   * A record written by the admin page, read through this page's interface:
   * every string field is present and `gradient` is absent.
   */
  function FromStored(f: Storage.Formation): (g: Formation)
    ensures g.id == f.id && g.title == f.title && g.description == f.description
    ensures g.duration == Some(f.duration) && g.students == Some(f.students)
    ensures g.modules == Some(f.modules) && g.gradient == None
  {
    Formation(f.id, f.title, f.description, Some(f.duration), Some(f.students), Some(f.modules), None)
  }

  /** The admin page's stored list, read through this page's interface. */
  function ReadStored(stored: Option<seq<Storage.Formation>>): (r: Option<seq<Formation>>)
    ensures r.None? <==> stored.None?
    ensures r.Some? ==>
      |r.value| == |stored.value|
      && forall i :: 0 <= i < |stored.value| ==> r.value[i] == FromStored(stored.value[i])
  {
    match stored
    case None => None
    case Some(fs) => Some(FromStoredAll(fs))
  }

  function FromStoredAll(fs: seq<Storage.Formation>): (gs: seq<Formation>)
    ensures |gs| == |fs|
    ensures forall i :: 0 <= i < |fs| ==> gs[i] == FromStored(fs[i])
  {
    if fs == [] then [] else [FromStored(fs[0])] + FromStoredAll(fs[1..])
  }

  /**
   * A formation added through the admin form shows all three stat lines,
   * with the values as typed, on the default gradient.
   */
  lemma FilledRecordCard(f: Storage.Formation)
    requires AdminPage.IsFilled(f)
    ensures CardFor(FromStored(f)) == Card(f.title, f.description, DefaultGradient, Some([
      StatLine(DurationStat, f.duration + " mois"),
      StatLine(StudentsStat, f.students + " places"),
      StatLine(ModulesStat, f.modules + " modules")]))
  {
    assert f.duration != "" && f.students != "" && f.modules != "" by {
      TrimEmptyIffBlank(f.duration);
      TrimEmptyIffBlank(f.students);
      TrimEmptyIffBlank(f.modules);
      TrimmedNonEmptyIsTruthy(f.duration);
      TrimmedNonEmptyIsTruthy(f.students);
      TrimmedNonEmptyIsTruthy(f.modules);
    }
    var g := FromStored(f);
    assert StatLines(g) == [
      StatLine(DurationStat, f.duration + " mois"),
      StatLine(StudentsStat, f.students + " places"),
      StatLine(ModulesStat, f.modules + " modules")];
  }

  /**
   * Once the admin page has saved its list, the catalog shows exactly
   * that list, record for record and in the same order.
   */
  lemma CatalogShowsSavedList(saved: seq<Storage.Formation>)
    ensures var shown := FetchFormations(ReadStored(Some(saved)));
      |shown| == |saved| && forall i :: 0 <= i < |saved| ==> shown[i] == FromStored(saved[i])
  {
  }

  /**
   * After the admin page appends a filled record to the stored list, the
   * catalog shows the earlier records' cards in order, then that record's
   * card with all three stat lines.
   */
  lemma CatalogShowsAddedLast(before: seq<Storage.Formation>, added: Storage.Formation)
    requires AdminPage.IsFilled(added)
    ensures var cards := Cards(FetchFormations(ReadStored(Some(before + [added]))));
      |cards| == |before| + 1
      && (forall i :: 0 <= i < |before| ==> cards[i] == CardFor(FromStored(before[i])))
      && cards[|before|] == Card(added.title, added.description, DefaultGradient, Some([
        StatLine(DurationStat, added.duration + " mois"),
        StatLine(StudentsStat, added.students + " places"),
        StatLine(ModulesStat, added.modules + " modules")]))
  {
    var saved := before + [added];
    assert saved[|before|] == added;
    FilledRecordCard(added);
  }
}
