# SNW Academy site: the formation list, its catalog cards and the footer links

This project models the three pieces of logic in the SNW Academy landing site and proves properties about them in Dafny:

- **The admin dashboard** (`src/pages/AdminPage.tsx`) is modelled as the class `AdminPage.Page`. It holds the list of formations, the five text inputs of the "Add New Formation" form, and a record of the navigations it made. It shares a `Storage.LocalStorage` object with the rest of the site. That object has one field for the `formations` key and one for the `isAuthenticated` key.
  - The add handler appends one record only when all five inputs are non-empty after JavaScript's `trim`. It then saves the list and clears the inputs.
  - The delete handler filters records out by id.
  - The load step replaces the list when something is stored.
  - Logout removes the flag.
  - On mount, any flag other than `"true"` navigates to `/login`.
- **The formations catalog** (`src/components/FormationsSection.tsx`) is modelled as pure functions. They give the list read from storage, and for each formation its gradient, whether its stats block appears, and which stat lines it shows with which suffix. Optional strings follow JavaScript truthiness: a value is truthy when it is present and not `""`.
- **The footer** (`src/components/Footer.tsx`) is modelled as pure functions. They turn fetched `{id, title}` rows into links, empty the list on a fetch error, and replace the list in full on every re-fetch. The footer's fixed three section links are a constant.

Module `JsString` defines `String.prototype.trim` over the ECMAScript whitespace and line-terminator characters. Module `Scenarios` composes the admin page and the catalog over one storage object. It shows that a formation typed into the form appears as the catalog's last card, with all three stat lines.

Files: `wrappers.dfy`, `js_string.dfy`, `storage.dfy`, `admin_page.dfy`, `formations_section.dfy`, `footer.dfy`, `scenarios.dfy`.

## Model

| member | source | states |
|---|---|---|
| `JsString.LeadingTrimmableSpec` | src/pages/AdminPage.tsx:50 | The count of leading characters `trim` removes: all of them are whitespace or line terminators, and the next character, if any, is not. |
| `JsString.TrailingTrimmableSpec` | src/pages/AdminPage.tsx:50 | The same for the characters `trim` removes at the end. |
| `JsString.Trim` | src/pages/AdminPage.tsx:50 | JavaScript's `trim`: the input with its leading and trailing whitespace and line terminators removed. It is never longer than the input; its other properties are the lemmas below. |
| `JsString.Truthy` | src/components/FormationsSection.tsx:94 | JavaScript truthiness of an optional string: present and not `""`. |
| `JsString.TrimSlice` | src/pages/AdminPage.tsx:50 | `s.trim()` is a contiguous slice of `s`. Everything cut off on either side is whitespace. |
| `JsString.TrimEnds` | src/pages/AdminPage.tsx:50 | A non-empty `s.trim()` neither starts nor ends with a whitespace character. |
| `JsString.TrimKeepsFirstVisible` | src/pages/AdminPage.tsx:50 | A string with a non-whitespace character trims to a non-empty string. |
| `JsString.TrimEmptyIffBlank` | src/pages/AdminPage.tsx:50 | `s.trim()` is falsy (empty) exactly when every character of `s` is whitespace. |
| `JsString.TrimmedNonEmptyIsTruthy` | src/pages/AdminPage.tsx:50 | A value that passes the trim guard is itself a truthy string. |
| `AdminPage.CanAdd` | src/pages/AdminPage.tsx:50 | The add guard: each of title, description, duration, students and modules is non-empty after `trim`. |
| `AdminPage.CanAddIff` | src/pages/AdminPage.tsx:50 | The add guard holds exactly when none of title, description, duration, students and modules is blank. |
| `AdminPage.WithoutId` | src/pages/AdminPage.tsx:70 | The filter keeps exactly the records whose id differs from the argument: every one of them and no other. The list never grows. |
| `AdminPage.WithoutIdConcat` | src/pages/AdminPage.tsx:69-72 | Filtering distributes over concatenation. So the kept records stay in their original relative order. |
| `AdminPage.WithoutIdAbsent` | src/pages/AdminPage.tsx:69-72 | Deleting an id no record carries leaves the list unchanged. |
| `AdminPage.WithoutIdIdempotent` | src/pages/AdminPage.tsx:69-72 | Deleting the same id twice gives the same list as deleting it once. |
| `AdminPage.WithoutIdCount` | src/pages/AdminPage.tsx:69-72 | Delete removes exactly as many records as carry the id. |
| `AdminPage.DeleteAfterAdd` | src/pages/AdminPage.tsx:59-72 | Deleting the id of a just-appended record removes that record as well as any earlier ones with that id. |
| `AdminPage.Page.constructor` | src/pages/AdminPage.tsx:20-26 | Initial state: an empty list, five empty inputs, no navigation, attached to the given storage. |
| `AdminPage.Page.Mount` | src/pages/AdminPage.tsx:28-34 | Navigates to `/login` iff the stored flag is not `"true"` (an absent flag included). It loads the stored list in both cases. |
| `AdminPage.Page.LoadFormations` | src/pages/AdminPage.tsx:36-41 | Nothing stored: the list is unchanged. Something stored: the list becomes the stored list wholesale and equals the stored copy. |
| `AdminPage.Page.SaveFormations` | src/pages/AdminPage.tsx:43-46 | After a save, the stored copy and the shown list both equal the new list. The auth flag is untouched. |
| `AdminPage.Page.Edit` | src/pages/AdminPage.tsx:100-144 | An input's change handler sets that input to the typed value. The other four inputs, the list and storage are unchanged. |
| `AdminPage.Page.AddFormation` | src/pages/AdminPage.tsx:48-67 | If any input is blank, the list, the stored copy and the inputs are unchanged. Otherwise the list becomes the old list plus one record, with the given id and the five inputs as typed (untrimmed); storage equals it; all five inputs are `""`; the new record is filled. |
| `AdminPage.Page.DeleteFormation` | src/pages/AdminPage.tsx:69-72 | The list becomes the filter of the old list by id, and the stored copy equals it. |
| `AdminPage.Page.Logout` | src/pages/AdminPage.tsx:74-77 | The auth flag is removed, and one navigation to `/login` is recorded. |
| `FormationsSection.StatLineFor` | src/components/FormationsSection.tsx:96-119 | One stat's part of the block: its line (value plus suffix) when its field is truthy, nothing otherwise. |
| `FormationsSection.StatLines` | src/components/FormationsSection.tsx:95-120 | The block's lines: the duration, students and modules parts, in that order. |
| `FormationsSection.ShowsStats` | src/components/FormationsSection.tsx:94 | The condition for showing the stats block: duration, students or modules is truthy. |
| `FormationsSection.StatLineShownIff` | src/components/FormationsSection.tsx:96-119 | A stat line of a given kind appears iff that kind's field is truthy. |
| `FormationsSection.StatLineAt` | src/components/FormationsSection.tsx:96-119 | Every shown stat line comes from a truthy field. Its text is the value followed by " mois", " places" or " modules". |
| `FormationsSection.StatLinesOrdered` | src/components/FormationsSection.tsx:96-119 | Stat lines appear in duration, students, modules order, each kind at most once. |
| `FormationsSection.ShowsStatsIffLines` | src/components/FormationsSection.tsx:94 | The stats block's condition (duration, students or modules truthy) holds exactly when it would contain at least one line. |
| `FormationsSection.Gradient` | src/components/FormationsSection.tsx:80 | The card gradient is the formation's own when truthy, otherwise `from-gold/20 to-gold/5`. It is never empty. |
| `FormationsSection.CardFor` | src/components/FormationsSection.tsx:79-121 | A card shows the title, the description and the gradient. It has a stats block iff the block condition holds, and that block is the stat lines, never empty. |
| `FormationsSection.Cards` | src/components/FormationsSection.tsx:71 | One card per formation, in list order. |
| `FormationsSection.FetchFormations` | src/components/FormationsSection.tsx:23-29 | No stored entry: the shown list is empty. A stored entry: the shown list is exactly the stored list. The earlier list plays no part. |
| `FormationsSection.FromStored` | src/components/FormationsSection.tsx:7-15 | A record the admin page wrote, read through the catalog's interface: the strings are present and `gradient` is absent. |
| `FormationsSection.ReadStored` | src/components/FormationsSection.tsx:24-26 | Reading the admin page's stored list keeps absence and length, and maps every record in order. |
| `FormationsSection.FilledRecordCard` | src/components/FormationsSection.tsx:94-119 | A record that passed the admin guard shows all three stat lines with the values as typed, on the default gradient. |
| `FormationsSection.CatalogShowsSavedList` | src/components/FormationsSection.tsx:24-26 | Once the admin page has saved a list, the catalog shows that list record for record, in order. |
| `FormationsSection.CatalogShowsAddedLast` | src/components/FormationsSection.tsx:25-26 | After a filled record is appended to the stored list, the catalog shows the earlier cards unchanged and then the new record's full card. |
| `Scenarios.AddedFormationReachesCatalog` | src/pages/AdminPage.tsx:48-67 | A logged-in admin on any initial storage types valid inputs and submits. The catalog then has one more card than was stored: the earlier cards, then the new formation's card with all three stat lines. |
| `Footer.ToLink` | src/components/Footer.tsx:34 | A link's id is its row's id, its label is the row's title, and its href is `#formations`. |
| `Footer.ToLinks` | src/components/Footer.tsx:34 | On success there is one link per row, same length and order, and each link is built from its own row as above. |
| `Footer.RowsRoundTrip` | src/components/Footer.tsx:34 | The projection loses nothing: reading `{id, title}` back from the links gives the rows. |
| `Footer.Refetch` | src/components/Footer.tsx:26-35 | A fetch error makes the list empty whatever it held. A success makes it the links of the returned rows. |
| `Footer.AfterFetches` | src/components/Footer.tsx:38-45 | The footer's list after the mount fetch's and the change-triggered fetches' results are applied, in the order their responses arrive. Each result replaces the list through `Refetch`. |
| `Footer.LastFetchWins` | src/components/Footer.tsx:38-45 | Whatever came before, the list is determined by the response that arrived last. Lists are replaced, never merged. |
| `Footer.ErrorEmptiesList` | src/components/Footer.tsx:30-32 | Whatever happened before, a failing fetch leaves the footer with no formation links. |
| `Footer.AcademyLinksFixed` | src/components/Footer.tsx:15-19 | The section links are exactly `#a-propos`, `#pourquoi` and `#contact`, in that order. |

## Left out

- Layout, Tailwind classes and framer-motion animation (`useInView`, `motion.*`, the per-card delay) are presentation. So are the admin table and its "No formations added yet" message (src/pages/AdminPage.tsx:157-188).
- The Supabase client, the `select('id, title')` query and the realtime channel (src/components/Footer.tsx:26-49) are network calls. A fetch is an input of type `Result<seq<Row>, FetchError>`. Each change notification is one more fetch in the sequence given to `Footer.AfterFetches`. Subscribing and unsubscribing are not modelled.
- `Footer.Refetch`: success is taken to carry a list of rows. The `|| []` after `data.map(...)` can never apply, and a `null` data without an error is not modelled.
- `localStorage` and `JSON.stringify`/`JSON.parse` are abstracted: a key holds the value it encodes. `JSON.stringify` of an array is never `""`, so a stored list, even an empty one, always counts as "something stored". Text under `formations` written by anything other than the admin page is not modelled.
- `Date.now().toString()` (src/pages/AdminPage.tsx:52) is a clock read. The id is a parameter of `AddFormation`, and its uniqueness is not claimed.
- React Router navigation is recorded as the list `navigations`. The timing of `useEffect`, re-renders and unmounting are not modelled.
- The catalog's `window` "storage" listener (src/components/FormationsSection.tsx:34-42) re-runs the same load rule, `FetchFormations`. Registering and removing the listener are not modelled.
- `e.preventDefault()` and the browser's own `required` attribute on the inputs are not modelled. Only the handler's trim guard decides.
- JavaScript strings are UTF-16, while Dafny's `char` is a Unicode scalar value. Every character `trim` removes lies in the Basic Multilingual Plane, so trimming agrees.
- `label` is a Dafny keyword, so the label of `Footer.FormationLink` and `Footer.AcademyLink` is the field `text`.
- The add guard requires all five inputs to be non-blank and stores them untrimmed. No record has a `created_at`, and the catalog has no show-all toggle. The admin page and the catalog read local storage; only the footer queries the backend table.
- Overlapping footer fetches are not modelled as such. The fetch is asynchronous and a running one is never cancelled, so a slow mount response that arrives after a change-triggered one puts the older list back. `Footer.AfterFetches` and `Footer.LastFetchWins` take the results in the order their responses arrive, which is the order the footer's state is set.
- Storage exceptions are not modelled. `localStorage.getItem`, `setItem` (for example over quota, src/pages/AdminPage.tsx:44) and `removeItem` can throw. The handler then stops before updating the list or clearing the inputs. `Page.SaveFormations`, `Page.AddFormation`, `Page.DeleteFormation` and `Page.Logout` always complete.
- `AdminPage.Page.AddFormation` returns `added`, saying which branch ran. The handler itself returns nothing; the value only reports what the contract already determines.
- The footer's `console.error` and `console.log` calls (src/components/Footer.tsx:31,43) are diagnostics and are not modelled.
- Cards are keyed by `title` (src/components/FormationsSection.tsx:73), and the admin guard allows two formations with the same title. React's handling of duplicate keys is not modelled; `FormationsSection.Cards` gives one card per formation regardless.
- `src/components/ContactSection.tsx`, `HeroSection.tsx`, `AboutSection.tsx`, `WhyUsSection.tsx`, `src/pages/Index.tsx` and `src/main.tsx` are static content or bootstrapping. ContactSection's only logic is a `window.open` call with `encodeURIComponent`, a browser library call.
