/**
 * The admin page and the catalog side by side over one local storage.
 */
module Scenarios {
  import opened Wrappers
  import opened Storage
  import AdminPage
  import FormationsSection

  /**
   * A logged-in administrator opens the dashboard, types a formation into
   * the five inputs and submits it; the catalog, reading the same storage,
   * then shows every earlier stored formation followed by the new one, whose
   * card carries all three stat lines on the default gradient.
   */
  method AddedFormationReachesCatalog(
    initial: Option<seq<Formation>>,
    id: string, title: string, description: string, duration: string, students: string, modules: string)
    returns (cards: seq<FormationsSection.Card>)
    requires AdminPage.CanAdd(title, description, duration, students, modules)
    ensures var before := if initial.Some? then initial.value else [];
      |cards| == |before| + 1
      && forall i :: 0 <= i < |before| ==> cards[i] == FormationsSection.CardFor(FormationsSection.FromStored(before[i]))
    ensures cards[|cards| - 1] == FormationsSection.Card(title, description, FormationsSection.DefaultGradient, Some([
      FormationsSection.StatLine(FormationsSection.DurationStat, duration + " mois"),
      FormationsSection.StatLine(FormationsSection.StudentsStat, students + " places"),
      FormationsSection.StatLine(FormationsSection.ModulesStat, modules + " modules")]))
  {
    var before := if initial.Some? then initial.value else [];
    var added := Formation(id, title, description, duration, students, modules);
    var storage := new LocalStorage(initial, Some(AdminPage.AuthenticatedFlag));
    var page := new AdminPage.Page(storage);
    page.Mount();
    SubmitForm(page, id, title, description, duration, students, modules);
    assert storage.formations == Some(before + [added]);
    cards := FormationsSection.Cards(
      FormationsSection.FetchFormations(FormationsSection.ReadStored(storage.formations)));
    AdminPage.CanAddIff(title, description, duration, students, modules);
    FormationsSection.CatalogShowsAddedLast(before, added);
  }

  /** Types the five values into the form and submits it. */
  method SubmitForm(
    page: AdminPage.Page,
    id: string, title: string, description: string, duration: string, students: string, modules: string)
    requires AdminPage.CanAdd(title, description, duration, students, modules)
    modifies page`formations, page`title, page`description, page`duration,
             page`students, page`modules, page.storage`formations
    ensures page.formations == old(page.formations)
      + [Formation(id, title, description, duration, students, modules)]
    ensures page.Synced()
  {
    ghost var listed := page.formations;
    page.Edit(AdminPage.TitleInput, title);
    assert page.formations == listed;
    page.Edit(AdminPage.DescriptionInput, description);
    assert page.formations == listed;
    page.Edit(AdminPage.DurationInput, duration);
    assert page.formations == listed;
    page.Edit(AdminPage.StudentsInput, students);
    assert page.formations == listed;
    page.Edit(AdminPage.ModulesInput, modules);
    assert page.formations == listed;
    assert page.title == title && page.description == description && page.duration == duration
      && page.students == students && page.modules == modules;
    var ok := page.AddFormation(id);
    assert ok;
  }
}
