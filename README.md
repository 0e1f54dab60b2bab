# Nutrition plan manager: accounts, report editing and report saving

This project models, in Dafny, the core of a small Flask application that a
nutritionist uses to manage patients and their monthly reports (`app.py`).

- **Account table** (`patients.csv`): rows of username, plaintext password,
  role (`nutricionista` or `paciente`) and status (`active` or `archived`).
  The model covers:
  - the dashboard filter (active patients) and the archived filter;
  - `load_user` and the login check;
  - `create_patient`, which rejects a missing or empty username or password
    and a duplicate username, and otherwise appends an active patient;
  - `set_patient_status` and the `archive_patient` / `restore_patient` routes.

  The table is the class `Accounts.AccountStore`. Its fields are whether the
  file exists and its rows. The methods change the rows in place, as the
  source changes its DataFrame.
- **Opening a report for editing** (`edit_plan`). The record parsed from the
  saved page is normalised into the form's data:
  - the evolution list is filed by month, and the last entry wins;
  - it is then rebuilt as exactly twelve slots, with blank entries for the
    missing months;
  - missing top-level keys are filled with defaults. The default name is the
    username with `%20` decoded; the default goals are three blank goals.
- **Saving a report** (`save_plan`). The model covers:
  - the record built from the submitted form;
  - the loop that keeps only months with some metric filled in;
  - the three goals;
  - the HTML fragments (download buttons, goal, signal and supplement items);
  - `get_goal_icon` and the first name used in the closing line.
- **Round trip**: saving a form and opening the page again for editing gives
  back every saved field. The twelve evolution slots come back as saved, and
  months left blank become blank entries.

Modules: `Wrappers` (Option), `Text` (the Python string operations used),
`Accounts`, `JsonValue`, `EditPlan`, `SavePlan`, `RoundTrip`.

Three behaviours of the code that the model keeps:
- `name_first` is `name.split(' ')[0]`. A name that starts with a space gives
  an empty first name, and a tab is not a separator (`SavePlan.NameFirst`).
- The `try` at `app.py:441-448` covers only reading and parsing the page.
  Building the month map at `app.py:454` is outside it. An evolution value
  whose items cannot be filed by month therefore raises an uncaught exception,
  which the model reports as `EditPlan.Malformed` (`EditPlan.NormaliseFailure`).
- `set_patient_status` returns True when the username is absent, and the
  table is written back unchanged (`Accounts.WithStatusAbsent`). It returns
  False only when the file is missing.

## Model

| member | source | states |
|---|---|---|
| Accounts.Select | app.py:315 | the selected rows are exactly the table's rows with the given role and status, and there are no more of them than rows in the table |
| Accounts.ActivePatients | app.py:315 | the dashboard list holds exactly the table's rows with role `paciente` and status `active`; its order is given by `Accounts.SelectAppend` |
| Accounts.ArchivedPatients | app.py:372 | the archived list holds exactly the table's rows with role `paciente` and status `archived`; its order is given by `Accounts.SelectAppend` |
| Accounts.SelectAppend | app.py:372 | selection keeps table order: selecting from two concatenated tables is the concatenation of the selections |
| Accounts.ListsDisjoint | app.py:371-372 | no row is on both the dashboard and the archived list, and both lists hold only patient rows of the table |
| Accounts.FirstWithUsername | app.py:35 | `.iloc[0]` of the username match: none exactly when no row has the username, otherwise the position of the first such row |
| Accounts.LoadUser | app.py:32-38 | a user is loaded exactly when a username was given and some row has it, and the loaded user is the first such row |
| Accounts.LoginSucceeds | app.py:291-293 | login succeeds exactly when both fields were sent and the first row with the username holds the submitted password |
| Accounts.CreateCheck | app.py:331-340 | creation proceeds exactly when username and password are both present and non-empty and the username is new; a missing field is reported exactly when either one is absent or empty (a username of spaces is accepted, as in the source) |
| Accounts.CreateRows | app.py:345-357 | on success the table gains one row at the end, the given username and password as an active patient, and keeps every earlier row; otherwise it is unchanged |
| Accounts.NewPatient | app.py:346-351 | the row `create_patient` appends: the username and password with role `paciente` and status `active`; definition only, used by `Accounts.CreateRows` and `Accounts.CreatedIsListedAndCanLogIn` |
| Accounts.CreateKeepsUnique | app.py:338 | creating a patient keeps usernames unique |
| Accounts.CreateTwice | app.py:337-340 | creating the same username a second time reports a duplicate, leaves the table unchanged, and the username has exactly one row |
| Accounts.CreatedIsListedAndCanLogIn | app.py:346-354 | a created patient appears last on the dashboard, the archived list is unchanged, and the patient can log in with the chosen password |
| Accounts.WithStatus | app.py:383 | same number of rows; every row keeps its username, password and role; the status becomes the new one exactly on the rows with the username |
| Accounts.WithStatusAbsent | app.py:383-385 | a status change for an absent username leaves the table as it was |
| Accounts.WithStatusTwice | app.py:383 | a second status change of a username overrides the first |
| Accounts.ArchiveThenRestore | app.py:389-408 | archive then restore makes the username's rows active and changes nothing else |
| Accounts.ArchiveThenRestoreActive | app.py:393-403 | archiving then restoring a patient who was active gives back the original table |
| Accounts.ArchivedLeavesDashboard | app.py:393 | after archiving, no row of the username is on the dashboard and each of its patient rows is on the archived list |
| Accounts.AccountStore.constructor | app.py:341-343 | the store holds the given rows; a missing file holds no rows |
| Accounts.AccountStore.CreatePatient | app.py:324-360 | the outcome is `CreateCheck` of the old table and the new table is `CreateRows` of it; the file exists afterwards exactly when it did or a patient was created |
| Accounts.AccountStore.SetPatientStatus | app.py:378-387 | reports failure exactly when there is no file; the loop rewrites the rows in place into `WithStatus` of the old rows; the file's presence is unchanged |
| Accounts.AccountStore.ArchivePatient | app.py:389-397 | the table becomes `WithStatus(old rows, username, "archived")`; it reports success exactly when the file exists |
| Accounts.AccountStore.RestorePatient | app.py:399-408 | the table becomes `WithStatus(old rows, username, "active")`; it reports success exactly when the file exists |
| Text.Strip | app.py:492 | `str.strip()`: no longer than the input, no whitespace at either end, and empty for an all-whitespace input |
| Text.StripTrimmed | app.py:492 | a string with no whitespace at either end is left unchanged by `strip()` |
| Text.StripIdempotent | app.py:492 | `strip()` applied twice equals `strip()` applied once |
| Text.Split | app.py:492-493 | `str.split(sep)`: at least one part, no part contains the separator, the first part is the text before the first separator, and joining the parts with the separator gives the input |
| Text.SplitJoin | app.py:492-493 | splitting a join of separator-free parts gives the parts back |
| Text.DecodeSpaces | app.py:473 | `replace('%20', ' ')` never lengthens the string and leaves a string containing no `%20` unchanged |
| Text.DecodeSpacesSplice | app.py:473 | replacing in `a + "%20" + b` gives the replacement of `a`, a space, and the replacement of `b`; with the previous row this determines the result on every string |
| Text.DecodeSpacesComplete | app.py:473 | no `%20` remains after the replacement |
| EditPlan.EvolutionItems | app.py:454 | a missing evolution key iterates as the empty list, and a stored list iterates as its items |
| EditPlan.ByMonth | app.py:454 | the month map exists exactly when every item can be filed; each value is filed under its own month; the keys are exactly the items' months |
| EditPlan.ByMonthPicksLast | app.py:454 | of several items with one month, the last one is kept |
| EditPlan.Placeholder | app.py:464-466 | the blank entry for a month is an item that can be filed, and it is filed under that month |
| EditPlan.Defaults | app.py:472-476 | the default values of the top-level keys; definition only, stated through `EditPlan.NormaliseDefaults`, `EditPlan.DefaultName` and `EditPlan.NormaliseEmpty` |
| EditPlan.Normalise | app.py:454-478 | what `edit_plan` passes to the form; definition only, stated through `EditPlan.NormaliseFailure`, `EditPlan.NormalisedEvolution`, `EditPlan.NormaliseKeepsStored`, `EditPlan.NormaliseBlanksMissing` and `EditPlan.NormaliseDefaults`, and computed by `EditPlan.Edit` |
| EditPlan.WithDefaults | app.py:477-478 | `setdefault` over the defaults: the keys are the union; stored values win; defaults fill only the missing keys |
| EditPlan.WithDefaultsPresent | app.py:477-478 | a record that already has every default key is unchanged |
| EditPlan.CompleteEvolution | app.py:457-466 | the loop over months 1 to 12 yields the twelve slots: the stored entry for the month, or a blank entry |
| EditPlan.SetDefaults | app.py:472-478 | the `setdefault` loop gives the record with defaults filled in |
| EditPlan.Edit | app.py:450-481 | normalising a loaded record gives `Normalise` of it, `Malformed` where the source raises |
| EditPlan.NormalisedEvolution | app.py:454-469 | a normalised record has an evolution list of exactly twelve entries, the one at index k for month k+1 |
| EditPlan.NormaliseKeepsStored | app.py:454-461 | a stored entry for a month in 1..12 that is the last one for its month is kept unchanged in that month's slot |
| EditPlan.NormaliseBlanksMissing | app.py:462-466 | a month with no stored entry gets the blank entry with empty metrics |
| EditPlan.NormaliseDefaults | app.py:469-478 | stored keys other than evolution are kept unchanged; missing keys get their defaults; no other key appears |
| EditPlan.DefaultName | app.py:473 | without a stored name, the name is the username with `%20` decoded, and no `%20` remains |
| EditPlan.NormaliseFailure | app.py:454 | loading fails exactly when the evolution value cannot be iterated or one of its items cannot be filed; a record without evolution always loads |
| EditPlan.NormaliseEmpty | app.py:436-478 | with no saved page the form gets all the defaults and twelve blank months |
| SavePlan.Lines | app.py:492-493 | a multi-line field becomes at least one line; no line holds a newline; joining the lines with newlines gives the stripped value |
| SavePlan.BuildEvolution | app.py:499-506 | at most twelve entries, months strictly increasing in 1..12, each entry the form's values for its month, and a month present exactly when one of its metrics is filled in |
| SavePlan.FormGoals | app.py:495 | exactly three goals, each text as submitted, completed exactly when its checkbox sent `on` |
| SavePlan.FormRecord | app.py:488-497 | the `data` dictionary built from the form; definition only, with the evolution list characterised by `SavePlan.BuildEvolution` and read back by `SavePlan.ToJsonInjective` and `RoundTrip.SaveThenEdit` |
| SavePlan.Fragment | app.py:512-514 | `"".join` of the markup of the kept items; definition only, stated through `SavePlan.FragmentAppend`, `SavePlan.FragmentSingle` and `SavePlan.FragmentEmpty` |
| SavePlan.ListItem | app.py:513-514 | a signal or supplement line as `<li>` markup; definition only |
| SavePlan.GoalItem | app.py:512 | a goal as list markup, highlighted and with the icon `SavePlan.GoalIcon` selects; definition only |
| SavePlan.FragmentAppend | app.py:512-514 | an item fragment of a concatenation is the concatenation of the fragments |
| SavePlan.FragmentSingle | app.py:512-514 | a single item contributes its markup when kept and nothing otherwise |
| SavePlan.FragmentEmpty | app.py:512-514 | when every kept item has non-empty markup, the fragment is empty exactly when no item is kept (an empty signal list, or only blank lines, renders nothing) |
| SavePlan.GoalIcon | app.py:536-539 | the check-mark icon exactly for a completed goal, the spinner exactly for a pending one |
| SavePlan.DownloadButton | app.py:508-511 | the button is empty exactly when no URL was given; otherwise it is a link whose `href` is the URL |
| SavePlan.NameFirst | app.py:524 | empty for a blank name; otherwise the prefix of the name up to the first space, containing no space |
| SavePlan.Render | app.py:508-524 | the derived template values; definition only, each part stated by `SavePlan.DownloadButton`, `SavePlan.Fragment`'s lemmas, `SavePlan.GoalIcon` and `SavePlan.NameFirst` |
| SavePlan.Save | app.py:487-525 | the saved record is the form's record with the evolution list `BuildEvolution` promises, and the page fragments are those of that record |
| SavePlan.ToJson | app.py:517 | the record as `json.dumps` writes it; definition only, stated through `SavePlan.ToJsonInjective` and `RoundTrip.SaveThenEdit` |
| SavePlan.StringsJsonInjective | app.py:517 | distinct string lists serialise differently |
| SavePlan.GoalsJsonInjective | app.py:517 | distinct goal lists serialise differently |
| SavePlan.EvolutionJsonInjective | app.py:517 | distinct evolution lists serialise differently |
| SavePlan.GroupsJsonInjective | app.py:517 | the bioimpedance, habits and plan groups can be read back from their serialisation |
| SavePlan.ToJsonInjective | app.py:517 | distinct records serialise differently, so every saved field can be read back |
| RoundTrip.SavedItems | app.py:454 | every saved evolution entry can be filed, under its own month |
| RoundTrip.SavedSlot | app.py:457-466 | after saving, a month's slot is the saved entry when a metric was filled in and a blank entry otherwise |
| RoundTrip.SavedSlots | app.py:457-466 | after saving, the twelve slots are those the form determines |
| RoundTrip.SaveThenEdit | app.py:454-478 | editing a saved record always loads and gives the saved record with the evolution list replaced by the twelve slots the form determines |

## Left out

- Flask routing, sessions, `login_manager`, `login_user`, `flash` messages, redirects and rendered templates, the `nutritionist_required` decorator, `index` and `logout`: these are web framework plumbing with no state of their own.
- pandas CSV reading and writing: the table is held in memory. pandas type inference is not modelled. Numeric-looking usernames or passwords become numbers, and empty cells become NaN. Every cell is a string here.
- Concurrent requests: each handler reads, changes and writes the whole file. Interleaved requests can lose updates. Each operation here is atomic.
- `view_plan` and its placeholder page: these only serve a file.
- Locating, reading and writing the patient's HTML page: file I/O.
- BeautifulSoup extraction and `json.loads` / `json.dumps`: serialising and parsing the embedded block are taken to be inverse. A missing page, a missing block or a parse error gives the empty record. A top-level JSON value that is not an object is not modelled.
- JSON numbers are integers only. A month stored as a float such as `3.0` would hash like `3` in Python, but it is not modelled.
- `datetime.now()`: the consultation date default is the parameter `today`.
- `HTML_TEMPLATE_CLIENTE.format(...)`, the `N/A` fallbacks and the client-side chart: the model stops at the values passed to the template.
- HTML escaping: the source performs none, and neither does the model.
- Text.Strip: the contract states the result's ends, length and idempotence, not that it is exactly the middle slice of the input between the leading and trailing whitespace.
- Text.Split: only one-character separators are modelled, which is all the source uses.
- SavePlan.DownloadButton: the contract states the empty case and the `href` prefix, not the rest of the markup.
