/**
 * The admin dashboard: a list of formations, five text inputs for a new
 * formation, and the copy of the list and the auth flag kept in local storage.
 */
module AdminPage {
  import opened Wrappers
  import opened JsString
  import opened Storage

  /** The route the page navigates to when the visitor is not logged in. */
  const LoginRoute := "/login"
  /** The only value of 'isAuthenticated' that lets the visitor stay. */
  const AuthenticatedFlag := "true"

  /** The five text inputs of the "Add New Formation" form. */
  datatype InputField = TitleInput | DescriptionInput | DurationInput | StudentsInput | ModulesInput

  /** The guard of the add handler: each of the five inputs is truthy once trimmed. */
  predicate CanAdd(title: string, description: string, duration: string, students: string, modules: string) {
    Trim(title) != "" && Trim(description) != "" && Trim(duration) != ""
    && Trim(students) != "" && Trim(modules) != ""
  }

  /** None of the five values is blank (empty or whitespace only). */
  ghost predicate NoneBlank(title: string, description: string, duration: string, students: string, modules: string) {
    !IsBlank(title) && !IsBlank(description) && !IsBlank(duration)
    && !IsBlank(students) && !IsBlank(modules)
  }

  /** A record every one of whose text fields holds a non-blank value. */
  ghost predicate IsFilled(f: Formation) {
    NoneBlank(f.title, f.description, f.duration, f.students, f.modules)
  }

  /** The add guard holds exactly when no input is blank. */
  lemma CanAddIff(title: string, description: string, duration: string, students: string, modules: string)
    ensures CanAdd(title, description, duration, students, modules)
            <==> NoneBlank(title, description, duration, students, modules)
  {
    TrimEmptyIffBlank(title);
    TrimEmptyIffBlank(description);
    TrimEmptyIffBlank(duration);
    TrimEmptyIffBlank(students);
    TrimEmptyIffBlank(modules);
  }

  /** The records of `fs` whose id differs from `id`, in their original order. */
  function WithoutId(fs: seq<Formation>, id: string): (r: seq<Formation>)
    ensures |r| <= |fs|
    ensures forall f :: f in r <==> f in fs && f.id != id
  {
    if fs == [] then []
    else if fs[0].id != id then [fs[0]] + WithoutId(fs[1..], id)
    else WithoutId(fs[1..], id)
  }

  /**
   * Filtering distributes over concatenation; with the one-record case this
   * says the records kept are in their original order.
   */
  lemma {:induction false} WithoutIdConcat(a: seq<Formation>, b: seq<Formation>, id: string)
    ensures WithoutId(a + b, id) == WithoutId(a, id) + WithoutId(b, id)
  {
    if a == [] {
      assert a + b == b;
    } else {
      assert (a + b)[1..] == a[1..] + b;
      WithoutIdConcat(a[1..], b, id);
    }
  }

  /** Deleting an id that no record carries leaves the list as it was. */
  lemma {:induction false} WithoutIdAbsent(fs: seq<Formation>, id: string)
    requires forall k :: 0 <= k < |fs| ==> fs[k].id != id
    ensures WithoutId(fs, id) == fs
  {
    if fs != [] {
      WithoutIdAbsent(fs[1..], id);
    }
  }

  /** Deleting twice is deleting once. */
  lemma WithoutIdIdempotent(fs: seq<Formation>, id: string)
    ensures WithoutId(WithoutId(fs, id), id) == WithoutId(fs, id)
  {
    var r := WithoutId(fs, id);
    forall k | 0 <= k < |r| ensures r[k].id != id {
      assert r[k] in r;
    }
    WithoutIdAbsent(r, id);
  }

  /** The records kept plus the records carrying `id` account for the whole list. */
  lemma {:induction false} WithoutIdCount(fs: seq<Formation>, id: string)
    ensures |WithoutId(fs, id)| == |fs| - CountId(fs, id)
  {
    if fs != [] {
      WithoutIdCount(fs[1..], id);
    }
  }

  /** How many records carry `id`. */
  function CountId(fs: seq<Formation>, id: string): (n: nat)
    ensures n <= |fs|
    ensures n == 0 <==> forall k :: 0 <= k < |fs| ==> fs[k].id != id
  {
    if fs == [] then 0
    else (if fs[0].id == id then 1 else 0) + CountId(fs[1..], id)
  }

  /** Deleting the id of a record just appended takes away that record too. */
  lemma DeleteAfterAdd(fs: seq<Formation>, f: Formation)
    ensures WithoutId(fs + [f], f.id) == WithoutId(fs, f.id)
  {
    WithoutIdConcat(fs, [f], f.id);
    assert WithoutId([f], f.id) == [];
  }

  class Page {
    /** The origin's local storage, shared with the other pages. */
    const storage: LocalStorage
    /** The list shown in the "Existing Formations" table. */
    var formations: seq<Formation>
    var title: string
    var description: string
    var duration: string
    var students: string
    var modules: string
    /** Every call of `navigate`, in order. */
    var navigations: seq<string>

    /** The five inputs, in form order. */
    function Inputs(): (r: seq<string>)
      reads this
      ensures |r| == 5
    {
      [title, description, duration, students, modules]
    }

    /** The stored copy of the list equals the list shown. */
    ghost predicate Synced()
      reads this, storage
    {
      storage.formations == Some(formations)
    }

    /** The component's initial state: an empty list and empty inputs. */
    constructor (storage: LocalStorage)
      ensures this.storage == storage
      ensures formations == [] && Inputs() == ["", "", "", "", ""] && navigations == []
    {
      this.storage := storage;
      formations := [];
      title, description, duration, students, modules := "", "", "", "", "";
      navigations := [];
    }

    /**
     * The mount effect: any flag other than "true", absent included, navigates
     * to the login route; the stored list is loaded in either case.
     */
    method Mount()
      modifies this`formations, this`navigations
      ensures navigations == old(navigations)
        + (if storage.isAuthenticated != Some(AuthenticatedFlag) then [LoginRoute] else [])
      ensures storage.formations.None? ==> formations == old(formations)
      ensures storage.formations.Some? ==> formations == storage.formations.value && Synced()
    {
      if storage.isAuthenticated != Some(AuthenticatedFlag) {
        navigations := navigations + [LoginRoute];
      }
      LoadFormations();
    }

    /** Replaces the list by the stored one when one is stored; otherwise keeps it. */
    method LoadFormations()
      modifies this`formations
      ensures storage.formations.None? ==> formations == old(formations)
      ensures storage.formations.Some? ==> formations == storage.formations.value && Synced()
    {
      match storage.formations
      case None =>
      case Some(stored) =>
        formations := stored;
    }

    /** Writes `updated` to storage, then shows it. */
    method SaveFormations(updated: seq<Formation>)
      modifies this`formations, storage`formations
      ensures formations == updated && Synced()
    {
      storage.formations := Some(updated);
      formations := updated;
    }

    /** An input's change handler. */
    method Edit(field: InputField, value: string)
      modifies this`title, this`description, this`duration, this`students, this`modules
      ensures title == if field == TitleInput then value else old(title)
      ensures description == if field == DescriptionInput then value else old(description)
      ensures duration == if field == DurationInput then value else old(duration)
      ensures students == if field == StudentsInput then value else old(students)
      ensures modules == if field == ModulesInput then value else old(modules)
    {
      match field
      case TitleInput => title := value;
      case DescriptionInput => description := value;
      case DurationInput => duration := value;
      case StudentsInput => students := value;
      case ModulesInput => modules := value;
    }

    /**
     * The form's submit handler, with `id` standing for the clock reading.
     * When an input is blank nothing changes; otherwise one record holding the
     * inputs as typed is appended, saved, and the inputs are cleared.
     * `added` reports which of the two happened.
     */
    method AddFormation(id: string) returns (added: bool)
      modifies this`formations, this`title, this`description, this`duration,
               this`students, this`modules, storage`formations
      ensures added == old(CanAdd(title, description, duration, students, modules))
      ensures !added ==>
        formations == old(formations) && storage.formations == old(storage.formations)
        && Inputs() == old(Inputs())
      ensures added ==>
        formations == old(formations)
          + [Formation(id, old(title), old(description), old(duration), old(students), old(modules))]
        && Synced() && Inputs() == ["", "", "", "", ""]
        && IsFilled(formations[|formations| - 1])
    {
      added := CanAdd(title, description, duration, students, modules);
      if added {
        var record := Formation(id, title, description, duration, students, modules);
        CanAddIff(title, description, duration, students, modules);
        SaveFormations(formations + [record]);
        title, description, duration, students, modules := "", "", "", "", "";
      }
    }

    /** A row's delete button: every record with this id goes, the rest stay in order. */
    method DeleteFormation(id: string)
      modifies this`formations, storage`formations
      ensures formations == WithoutId(old(formations), id) && Synced()
    {
      SaveFormations(WithoutId(formations, id));
    }

    /** Removes the auth flag and navigates to the login route. */
    method Logout()
      modifies storage`isAuthenticated, this`navigations
      ensures storage.isAuthenticated == None
      ensures navigations == old(navigations) + [LoginRoute]
    {
      storage.isAuthenticated := None;
      navigations := navigations + [LoginRoute];
    }
  }
}
