/**
 * The browser's local storage as the pages use it, and the formation record
 * the admin page writes into it.
 *
 * The text stored under a key is abstracted to the value it encodes:
 * `JSON.stringify` followed by `JSON.parse` gives back the same records, so
 * the key 'formations' holds a list of records and not JSON text.
 */
module Storage {
  import opened Wrappers

  /** A formation as the admin page creates and stores it: six strings. */
  datatype Formation = Formation(
    id: string,
    title: string,
    description: string,
    duration: string,
    students: string,
    modules: string)

  /** The two keys of the origin's local storage that the pages use. */
  class LocalStorage {
    /** Under key 'formations': None when nothing was ever stored. */
    var formations: Option<seq<Formation>>
    /** Under key 'isAuthenticated': None when the item is absent. */
    var isAuthenticated: Option<string>

    /** Storage as the browser hands it to the page on load. */
    constructor (formations: Option<seq<Formation>>, isAuthenticated: Option<string>)
      ensures this.formations == formations && this.isAuthenticated == isAuthenticated
    {
      this.formations := formations;
      this.isAuthenticated := isAuthenticated;
    }
  }
}
