# Training list and detail app, modelled in Dafny

The app is an Android app with one screen. It shows a list of trainings. Each training is a record with a name, a description and an icon. Tapping a row shows that record in a detail pane. A dialog adds new records.

This project models the logic that decides what the app holds and shows:

- **The training record** (`Entrenamiento`):
  - its fields, getters and setters;
  - its `Parcelable` side: `writeToParcel`, the reading constructor, `describeContents` and `CREATOR.newArray`.
- **The four built-in trainings**: Pilates, Voleibol, Fuerza and Running.
- **The add dialog**:
  - the four-icon picker and the cancel button;
  - the save button. It trims both fields. It rejects an empty name, then an empty description, then a name already in the list ignoring case. Otherwise it hands a new record to its listener and closes.
- **The main screen**:
  - where the list comes from at start-up: the rotation bundle, else the persistent store, else the four seeds, which are saved at once;
  - the single-pane and dual-pane layouts, with the first record auto-selected in the dual-pane layout;
  - the detail transaction and the back-button callback;
  - appending an added record and saving the whole list;
  - lending the live list to the dialog;
  - `onSaveInstanceState` and `onPause`.

Files and modules:

- `java.dfy` (`Java`): the parts of the Java platform the logic depends on.
  - a 32-bit `int`;
  - `null` as `Option`;
  - `String.trim`;
  - `String.equalsIgnoreCase`;
  - `ArrayList`, a class whose instances several owners share by reference.
- `resources.dfy` (`Resources`): the `R.drawable` and `R.id` constants the logic compares.
- `parcels.dfy` (`Parcels`): a `Parcel`. It is a sequence of typed values plus a read cursor.
- `trainings.dfy` (`Trainings`):
  - the record value `Entry` and the mutable record class `Training`;
  - the parcel layout and its round trips.
- `seeds.dfy` (`Seeds`): the four built-in trainings.
- `add_dialog.dfy` (`AddDialog`):
  - `Validate`, the save button as a function;
  - its loop implementation `FindDuplicate`;
  - the dialog class.
- `main_activity.dfy` (`Main`):
  - `StartupSource`, which picks where the list comes from at start-up;
  - a model of a series of saves, and lemmas about it;
  - the `MainActivity` class, whose `entries` list object the dialog holds by reference.

The main invariant is that saving only through the form keeps names pairwise different ignoring case. From a fresh install, the list is always the four seeds followed by the records of the saves accepted by a dialog this screen listens to, in call order (`Main.FreshInstallSession`).

The persistent store is a JSON value in shared preferences. It is abstracted to `Option<seq<Entry>>`: `None` means nothing was ever saved, and a save replaces the value with the whole list.

Source paths below are relative to the repository root.

## Model

| member | source | states |
|---|---|---|
| Java.Trim | app/src/main/java/com/example/examen1rtrimestremacia_denislopezsacher/AddEntrenamientoDialogFragment.java:297-300 | A trimmed field is the slice of the input left after cutting leading and trailing chars ≤ U+0020. It neither starts nor ends with such a char, and everything cut away is such a char. It is empty exactly when every char of the input is one. |
| Java.TrimIdempotent | app/src/main/java/com/example/examen1rtrimestremacia_denislopezsacher/AddEntrenamientoDialogFragment.java:297-300 | Trimming an already trimmed field changes nothing. |
| Java.EqualsIgnoreCaseIsUpperEquality | app/src/main/java/com/example/examen1rtrimestremacia_denislopezsacher/AddEntrenamientoDialogFragment.java:351 | The duplicate test (`equalsIgnoreCase`: char by char equal, equal upper-cased, or equal lower-of-upper) holds exactly when the upper-cased names are equal. |
| Java.EqualsIgnoreCaseSymmetric | app/src/main/java/com/example/examen1rtrimestremacia_denislopezsacher/AddEntrenamientoDialogFragment.java:351 | The duplicate test does not depend on which name is the receiver. |
| Java.EqualsIgnoreCaseTransitive | app/src/main/java/com/example/examen1rtrimestremacia_denislopezsacher/AddEntrenamientoDialogFragment.java:351 | The duplicate test is transitive. |
| Java.ArrayList.constructor | app/src/main/java/com/example/examen1rtrimestremacia_denislopezsacher/MainActivity.java:381 | `new ArrayList<>(c)` holds exactly `c`'s elements. |
| Java.ArrayList.Add | app/src/main/java/com/example/examen1rtrimestremacia_denislopezsacher/MainActivity.java:339 | `add` appends the element at the end, in place. |
| Parcels.Parcel.constructor | app/src/main/java/com/example/examen1rtrimestremacia_denislopezsacher/Entrenamiento.java:203 | Stands in for the platform's `Parcel.obtain()`, which the framework calls before it hands the parcel to `writeToParcel` (the cited line only receives it). A new parcel holds no values and its cursor is at the start. |
| Parcels.Parcel.WriteString | app/src/main/java/com/example/examen1rtrimestremacia_denislopezsacher/Entrenamiento.java:205-206 | Appends one string value at the end. The cursor does not move. |
| Parcels.Parcel.WriteInt | app/src/main/java/com/example/examen1rtrimestremacia_denislopezsacher/Entrenamiento.java:207 | Appends one int value at the end. The cursor does not move. |
| Parcels.Parcel.SetDataPosition | app/src/main/java/com/example/examen1rtrimestremacia_denislopezsacher/Entrenamiento.java:71 | Stands in for the platform's `setDataPosition`, which the framework calls to rewind a parcel before it hands it to the Parcel constructor (the cited line only receives it). Moves the cursor to the given position. The values are unchanged. |
| Parcels.Parcel.ReadString | app/src/main/java/com/example/examen1rtrimestremacia_denislopezsacher/Entrenamiento.java:73-74 | The string at the cursor, if a string value lies there, and then the cursor moves past it. Otherwise nothing is read and the cursor stays. |
| Parcels.Parcel.ReadInt | app/src/main/java/com/example/examen1rtrimestremacia_denislopezsacher/Entrenamiento.java:75 | The int at the cursor, if an int value lies there, and then the cursor moves past it. Otherwise nothing is read and the cursor stays. |
| Trainings.ReadEntries | app/src/main/java/com/example/examen1rtrimestremacia_denislopezsacher/MainActivity.java:115 | `n` records read one after the other. When the read succeeds it holds exactly `n` records. |
| Trainings.Training.constructor | app/src/main/java/com/example/examen1rtrimestremacia_denislopezsacher/Entrenamiento.java:54-58 | The getters return the name, description and icon id passed in. |
| Trainings.Training.SetName | app/src/main/java/com/example/examen1rtrimestremacia_denislopezsacher/Entrenamiento.java:134-136 | Only the name changes, to the argument. |
| Trainings.Training.SetDescription | app/src/main/java/com/example/examen1rtrimestremacia_denislopezsacher/Entrenamiento.java:150-152 | Only the description changes, to the argument. |
| Trainings.Training.SetIconResId | app/src/main/java/com/example/examen1rtrimestremacia_denislopezsacher/Entrenamiento.java:166-168 | Only the icon id changes, to the argument. |
| Trainings.Training.DescribeContents | app/src/main/java/com/example/examen1rtrimestremacia_denislopezsacher/Entrenamiento.java:181-183 | Always 0 (no file descriptors). |
| Trainings.Training.WriteToParcel | app/src/main/java/com/example/examen1rtrimestremacia_denislopezsacher/Entrenamiento.java:203-208 | Appends name, description and icon id, in that order. The cursor does not move. |
| Trainings.Training.CreateFromParcel | app/src/main/java/com/example/examen1rtrimestremacia_denislopezsacher/Entrenamiento.java:101-104 | Builds a fresh record exactly when a string, a string and an int lie at the cursor. The record holds what was read. The cursor advances past the values that were read. |
| Trainings.ReadEntry | app/src/main/java/com/example/examen1rtrimestremacia_denislopezsacher/Entrenamiento.java:71-76 | The Parcel constructor's reads, in the same order as the writes: a record exists exactly when all three reads succeed, and its encoding is the three values read. |
| Trainings.ReadEntryOfEncoding | app/src/main/java/com/example/examen1rtrimestremacia_denislopezsacher/Entrenamiento.java:71-76 | Reading where a written record starts gives that record back, whatever surrounds it. |
| Trainings.ReadEntriesRoundTrip | app/src/main/java/com/example/examen1rtrimestremacia_denislopezsacher/Entrenamiento.java:203-208 | Records written one after the other read back as the same list. |
| Trainings.ReadAllOfEncoding | app/src/main/java/com/example/examen1rtrimestremacia_denislopezsacher/MainActivity.java:115 | A parcel holding only the records of a list, written in order, reads back as that list. |
| Trainings.ParcelRoundTrip | app/src/main/java/com/example/examen1rtrimestremacia_denislopezsacher/Entrenamiento.java:66-76 | Writing a record, rewinding to where the write began and reading gives an equal fresh record and moves the cursor by three values. |
| Trainings.NewArray | app/src/main/java/com/example/examen1rtrimestremacia_denislopezsacher/Entrenamiento.java:115-117 | A fresh array of `size` null slots. It fails exactly when `size` is negative. |
| Seeds.Pilates | app/src/main/java/com/example/examen1rtrimestremacia_denislopezsacher/entrenamientos/Pilates.java:10-16 | Name "Pilates", its fixed description, the Pilates icon; a record the form could produce. |
| Seeds.Voleibol | app/src/main/java/com/example/examen1rtrimestremacia_denislopezsacher/entrenamientos/Voleibol.java:10-16 | Name "Voleibol", its fixed description, the Voleibol icon; a record the form could produce. |
| Seeds.Fuerza | app/src/main/java/com/example/examen1rtrimestremacia_denislopezsacher/entrenamientos/Fuerza.java:10-16 | Name "Fuerza", its fixed description, the Fuerza icon; a record the form could produce. |
| Seeds.Running | app/src/main/java/com/example/examen1rtrimestremacia_denislopezsacher/entrenamientos/Running.java:10-16 | Name "Running", its fixed description, the Running icon; a record the form could produce. |
| Seeds.SeedsUniqueAndWellFormed | app/src/main/java/com/example/examen1rtrimestremacia_denislopezsacher/MainActivity.java:208-218 | The seed list has four records. Their names are pairwise different ignoring case, and every record is well formed. |
| AddDialog.IconAfterClick | app/src/main/java/com/example/examen1rtrimestremacia_denislopezsacher/AddEntrenamientoDialogFragment.java:227-239 | Each of the four icon views selects its own icon. Any other view keeps the selection. A training icon stays a training icon. |
| AddDialog.FirstMatch | app/src/main/java/com/example/examen1rtrimestremacia_denislopezsacher/AddEntrenamientoDialogFragment.java:349-359 | The index of the first existing name equal to the new one ignoring case. There is none exactly when no name matches. |
| AddDialog.Validate | app/src/main/java/com/example/examen1rtrimestremacia_denislopezsacher/AddEntrenamientoDialogFragment.java:297-381 | The first failure wins. Empty trimmed name iff `EmptyName`. Non-empty name and empty description iff `EmptyDescription`. Both non-empty, a lent list, and a name in it ignoring case iff `DuplicateName`, which carries the first such entry's own casing. Otherwise it saves the trimmed name, the trimmed description and the selected icon. |
| AddDialog.SavedEntryWellFormed | app/src/main/java/com/example/examen1rtrimestremacia_denislopezsacher/AddEntrenamientoDialogFragment.java:297-368 | An accepted record made with a picker icon has non-empty, trimmed fields and a training icon. |
| AddDialog.SavedKeepsNamesUnique | app/src/main/java/com/example/examen1rtrimestremacia_denislopezsacher/AddEntrenamientoDialogFragment.java:347-361 | Appending an accepted record to the list it was checked against keeps the names pairwise different ignoring case. |
| AddDialog.FirstMatchAt | app/src/main/java/com/example/examen1rtrimestremacia_denislopezsacher/AddEntrenamientoDialogFragment.java:349-359 | A match with no match before it is the one the in-order walk stops at. |
| AddDialog.FindDuplicate | app/src/main/java/com/example/examen1rtrimestremacia_denislopezsacher/AddEntrenamientoDialogFragment.java:347-361 | The loop finds nothing exactly when `FirstMatch` finds nothing. Otherwise it returns the own name of the entry `FirstMatch` points at. |
| AddDialog.AddEntryDialog.constructor | app/src/main/java/com/example/examen1rtrimestremacia_denislopezsacher/AddEntrenamientoDialogFragment.java:76-84 | Pilates selected, no listener, no lent list. |
| AddDialog.AddEntryDialog.SetOnEntryAddedListener | app/src/main/java/com/example/examen1rtrimestremacia_denislopezsacher/AddEntrenamientoDialogFragment.java:133-143 | Registers the listener, or clears it. A registered listener's list is kept by reference. Clearing keeps the old list. |
| AddDialog.AddEntryDialog.OnIconClicked | app/src/main/java/com/example/examen1rtrimestremacia_denislopezsacher/AddEntrenamientoDialogFragment.java:216-241 | The selection becomes `IconAfterClick` of the clicked view. It is always one of the four icons. |
| AddDialog.AddEntryDialog.OnCancelClicked | app/src/main/java/com/example/examen1rtrimestremacia_denislopezsacher/AddEntrenamientoDialogFragment.java:264 | Closes the dialog. The listener is told nothing. |
| AddDialog.AddEntryDialog.OnSaveClicked | app/src/main/java/com/example/examen1rtrimestremacia_denislopezsacher/AddEntrenamientoDialogFragment.java:289-382 | The outcome is `Validate` of the fields, the lent list as it is now and the selection. A rejection changes nothing and keeps the dialog open. An acceptance calls the listener once, if there is one, and closes the dialog. |
| Main.StartupSource | app/src/main/java/com/example/examen1rtrimestremacia_denislopezsacher/MainActivity.java:113-126 | The bundle's list, if the bundle has the key; the store is left untouched. Else the store's list. Else the four seeds. Without the bundle, the store afterwards holds the list the screen uses. |
| Main.RotationRestoresList | app/src/main/java/com/example/examen1rtrimestremacia_denislopezsacher/MainActivity.java:113-116 | A list written to the bundle reads back unchanged, and the re-created screen starts from it whatever the store holds. |
| Main.AfterSave | app/src/main/java/com/example/examen1rtrimestremacia_denislopezsacher/MainActivity.java:337-343 | One save only appends, and by at most one record. |
| Main.SessionKeepsNamesUnique | app/src/main/java/com/example/examen1rtrimestremacia_denislopezsacher/MainActivity.java:359-361 | Any series of saves checked against the live list keeps names pairwise different ignoring case. |
| Main.SessionKeepsWellFormed | app/src/main/java/com/example/examen1rtrimestremacia_denislopezsacher/MainActivity.java:337-343 | Any series of saves with picker icons keeps every record well formed. |
| Main.SessionAppendsAccepted | app/src/main/java/com/example/examen1rtrimestremacia_denislopezsacher/MainActivity.java:337-343 | Saves only append, in call order. The list afterwards is the old list followed by the record of each accepted save, each checked against the list as it stood at that save. The list grows by exactly the number of accepted saves. |
| Main.SessionIsListThenAccepted | app/src/main/java/com/example/examen1rtrimestremacia_denislopezsacher/MainActivity.java:337-343 | The list after a series of saves is the old list followed by the records the accepted saves created, in call order. |
| Main.FreshInstallSession | app/src/main/java/com/example/examen1rtrimestremacia_denislopezsacher/MainActivity.java:122-126 | From a fresh install the list is the four seeds followed by the accepted saves' records, in call order. It has 4 + accepted-saves records, with unique names. |
| Main.LowerCasePilatesRejected | app/src/main/java/com/example/examen1rtrimestremacia_denislopezsacher/AddEntrenamientoDialogFragment.java:347-359 | On a fresh install "pilates" is rejected as a duplicate of "Pilates", and the list is unchanged. |
| Main.YogaAccepted | app/src/main/java/com/example/examen1rtrimestremacia_denislopezsacher/AddEntrenamientoDialogFragment.java:297-368 | On a fresh install " Yoga " is accepted, trimmed, with the selected icon. |
| Main.MainActivity.constructor | app/src/main/java/com/example/examen1rtrimestremacia_denislopezsacher/MainActivity.java:75-152 | The list and the store are `StartupSource`'s. In the dual-pane layout a non-empty list shows its first record. The back callback starts enabled with an empty stack. |
| Main.MainActivity.LoadEntries | app/src/main/java/com/example/examen1rtrimestremacia_denislopezsacher/MainActivity.java:113-126 | A new list holding `StartupSource`'s list: the bundle's, else the store's, else the seeds. |
| Main.MainActivity.InitEntries | app/src/main/java/com/example/examen1rtrimestremacia_denislopezsacher/MainActivity.java:208-218 | A new list holding Pilates, Voleibol, Fuerza, Running in that order. |
| Main.MainActivity.ShowDetail | app/src/main/java/com/example/examen1rtrimestremacia_denislopezsacher/MainActivity.java:230-267 | The container shows the record. Single-pane: the list is hidden and the back stack grows by one. Dual-pane: the list and the stack are unchanged. |
| Main.MainActivity.OnItemClick | app/src/main/java/com/example/examen1rtrimestremacia_denislopezsacher/MainActivity.java:136-141 | Shows the record at the clicked row, as `ShowDetail` does. |
| Main.MainActivity.HandleBackPressed | app/src/main/java/com/example/examen1rtrimestremacia_denislopezsacher/MainActivity.java:164-197 | Enabled, single-pane, container visible: pops the stack, shows the list and hides the container. Otherwise the callback disables itself for good and the press goes to the platform. Detail, list and store are unchanged. |
| Main.MainActivity.OnEntryAdded | app/src/main/java/com/example/examen1rtrimestremacia_denislopezsacher/MainActivity.java:337-348 | Appends the record to the same list object and saves the whole list. |
| Main.MainActivity.GetExistingEntries | app/src/main/java/com/example/examen1rtrimestremacia_denislopezsacher/MainActivity.java:359-361 | Returns the live list itself, not a copy. |
| Main.MainActivity.ShowAddDialog | app/src/main/java/com/example/examen1rtrimestremacia_denislopezsacher/MainActivity.java:310-321 | A new dialog with this screen as listener, holding the screen's list object. |
| Main.MainActivity.SaveThroughDialog | app/src/main/java/com/example/examen1rtrimestremacia_denislopezsacher/AddEntrenamientoDialogFragment.java:368-381 | The outcome is the dialog's `Validate`. With this screen as listener, the list becomes `AfterSave` of the old list. An accepted record is appended once and saved. Unique names stay unique. |
| Main.MainActivity.OnSaveInstanceState | app/src/main/java/com/example/examen1rtrimestremacia_denislopezsacher/MainActivity.java:375-382 | The bundle maps the key to a copy of the list. Other keys are kept. |
| Main.MainActivity.OnPause | app/src/main/java/com/example/examen1rtrimestremacia_denislopezsacher/MainActivity.java:396-405 | Saves the whole list again. Nothing else changes. |

## Left out

- **Storage (`EntrenamientoStorage`):**
  - The shared-preferences store is abstracted to `Option<seq<Entry>>`.
  - Gson encoding and decoding are not modelled. A save replaces the value with the list, and a load returns it. Writes are asynchronous and failures are silently lost in the app; the model treats every save as done.
  - The app has no handling for a malformed stored value. The model does not add any either, so a load always yields the saved list.
- **Parcel:**
  - Android's parcel is an untyped byte buffer with one data position for reads and writes. The model keeps tagged values and a cursor.
  - A read that finds no value of the right type fails (`None`) and does not move the cursor. Android would return null or 0, or misread bytes.
  - Bundle framing (item count, class names) is not modelled. A bundle is a map from key to list.
- Parcels.Parcel.WriteString: model writes append at the end and leave the cursor where it is. Android writes at the single data position and advances it. The two agree only when that position is at the end of the data, as it is for a fresh parcel that is only written to.
- Parcels.Parcel.WriteInt: the same as `WriteString`.
- **Seed subclasses:**
  - The model has no subclasses. The four subclasses' `CREATOR.createFromParcel` and `newArray` behave like the base record's, so `Trainings.Training.CreateFromParcel`, `Trainings.NewArray` and `Trainings.ReadEntryOfEncoding` cover them. In particular a subclass's Parcel constructor (for example `entrenamientos/Pilates.java:18-20`) only calls the base one.
  - Restoring a seed after rotation yields a record equal to the seed, not an instance of its subclass.
- Java.EqualsIgnoreCase: only the ASCII letters have case mappings here. Java also maps other Unicode letters, so two non-ASCII names the app treats as equal may be different here.
- **Null names:**
  - Record names and descriptions are never null in the model.
  - A record created with a null name would make the duplicate check throw in the app.
  - A text field that yields null reads as "" (modelled).
- **Resource ids:** the `R.drawable` and `R.id` numbers are stand-ins. The logic only compares them.
- **Fragment manager:**
  - Fragment transactions are reduced to a back-stack depth and the record the container shows.
  - The popped fragment is not removed from `detail`.
  - After a rotation the re-created screen starts with an empty stack. The fragment manager's restoration of the back stack and of the shown detail is not modelled.
- **Listener:**
  - The dialog's listener is reduced to a flag plus the list it lent.
  - Calls made to it are recorded in `delivered`. `Main.MainActivity.SaveThroughDialog` delivers them to `OnEntryAdded`.
  - The framework re-creating the dialog after a rotation (without its listener) is not modelled. A dialog without a listener is: since it lent no list, its save skips the duplicate check. It then accepts a record with non-empty fields, delivers it to no one, and closes. The record is dropped, and the screen's list stays as it was (`Main.MainActivity.SaveThroughDialog`, `AddDialog.AddEntryDialog.OnSaveClicked`). In the app, that is what a save in a dialog left open across a rotation does.
- **Creation:** the screen's creation and `onCreate` are one constructor. Orientation is its `isDualPane` argument, and the initial visibilities are its arguments.
- Main.MainActivity.OnPause: the app's null check on the list and the store always passes in the model, because both always exist.
- **Not modelled at all:**
  - `onStart` dialog window sizing, toasts, colours and icon backgrounds, the toolbar and options menu;
  - `EntrenamientoAdapter` and `FragmentDetalle`, which render only.
  - The toolbar and the options menu both only call `mostrarDialogAgregarEntrenamiento` (`Main.MainActivity.ShowAddDialog`).
- Main.MainActivity.HandleBackPressed: the platform's default back action is reduced to the flag `fellThrough`, and its effects are not modelled. If the fragment back stack is not empty, the fragment manager's own callback pops it. If the stack is empty, the screen is finished, or moved to the background on newer Android versions. The model keeps the screen alive after a fall-through with `backStack` and both visibilities unchanged. Nothing in the app turns the callback on again or shows the list again once the callback is disabled. So a screen that outlives a fall-through and then opens a record in the single-pane layout keeps its list hidden. `Main.BackAfterFallThroughScenario` walks through this case.
- **Callback order:** the back callback intercepts the first back press in the dual-pane layout and in the list view, then disables itself and forwards the press. The net effect is that such presses go to the platform's default action. After that the callback stays disabled for the life of the screen. The model keeps that order (`backEnabled`, `fellThrough`).
