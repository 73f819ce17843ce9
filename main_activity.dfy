/**
 * The main screen (`MainActivity`): it owns the training list, picks where
 * the list comes from at start-up, saves the whole list to the persistent
 * store whenever it grows, and coordinates the list pane, the detail
 * container, the fragment back stack and the back-button callback.
 *
 * The persistent store (a JSON value in shared preferences) is abstracted
 * to `Option<seq<Entry>>`: `None` when nothing was ever saved, and a save
 * replaces the value with the whole list.
 */
module Main {
  import opened Java
  import opened Resources
  import opened Trainings
  import opened Seeds
  import opened AddDialog

  /** The key under which the list travels in the rotation bundle. */
  const SavedListKey: string := "entrenamientos"

  /** The rotation bundle, as far as the app uses it: parcelable lists by key. */
  type Bundle = map<string, seq<Entry>>

  predicate HasSavedList(savedState: Option<Bundle>) {
    savedState.Some? && SavedListKey in savedState.value
  }

  /** The list and the store value right after start-up. */
  datatype Startup = Startup(entries: seq<Entry>, store: Option<seq<Entry>>)

  /**
   * Where `onCreate` takes the list from: the rotation bundle if it holds
   * the list (used as it is, the store untouched), else the store's value,
   * else the seeds, which are then saved at once.
   */
  function StartupSource(savedState: Option<Bundle>, store: Option<seq<Entry>>): (r: Startup)
    ensures HasSavedList(savedState) ==> r.entries == savedState.value[SavedListKey] && r.store == store
    ensures !HasSavedList(savedState) && store.Some? ==> r.entries == store.value && r.store == store
    ensures !HasSavedList(savedState) && store.None? ==> r.entries == SeedList()
    ensures !HasSavedList(savedState) ==> r.store == Some(r.entries)
  {
    if HasSavedList(savedState) then Startup(savedState.value[SavedListKey], store)
    else if store.Some? then Startup(store.value, store)
    else Startup(SeedList(), Some(SeedList()))
  }

  /**
   * A list put in the bundle by `onSaveInstanceState` survives the rotation:
   * its records, written one after the other, read back as the same list,
   * and the re-created screen starts from that list whatever the store holds.
   */
  lemma RotationRestoresList(outState: Bundle, list: seq<Entry>, store: Option<seq<Entry>>)
    ensures StartupSource(Some(outState[SavedListKey := list]), store).entries == list
    ensures ReadEntries(EncodeAll(list), 0, |list|) == Some(list)
  {
    ReadAllOfEncoding(list);
  }

  // ---------------------------------------------------------------------
  // A session of saves through the add form
  // ---------------------------------------------------------------------

  /** What one press of the save button is given. */
  datatype Submission = Submission(nameText: Option<string>, descText: Option<string>, icon: int32)

  /** The record one save creates: none when it is rejected. */
  function Created(list: seq<Entry>, s: Submission): (r: seq<Entry>)
    ensures |r| <= 1
  {
    match Validate(s.nameText, s.descText, Some(list), s.icon)
    case Saved(e) => [e]
    case Rejected(_) => []
  }

  /** The list after one save checked against that very list. */
  function AfterSave(list: seq<Entry>, s: Submission): (r: seq<Entry>)
    ensures list <= r && |r| <= |list| + 1
  {
    list + Created(list, s)
  }

  /** The list after a series of saves, in order. */
  function AfterSaves(list: seq<Entry>, subs: seq<Submission>): seq<Entry>
    decreases |subs|
  {
    if subs == [] then list else AfterSaves(AfterSave(list, subs[0]), subs[1..])
  }

  /** How many of the saves are accepted. */
  function AcceptedCount(list: seq<Entry>, subs: seq<Submission>): nat
    decreases |subs|
  {
    if subs == [] then 0
    else (if Validate(subs[0].nameText, subs[0].descText, Some(list), subs[0].icon).Saved? then 1 else 0)
         + AcceptedCount(AfterSave(list, subs[0]), subs[1..])
  }

  /**
   * The records the saves create, in call order, each checked against the
   * list as it stood at that save.
   */
  function Accepted(list: seq<Entry>, subs: seq<Submission>): seq<Entry>
    decreases |subs|
  {
    if subs == [] then [] else Created(list, subs[0]) + Accepted(AfterSave(list, subs[0]), subs[1..])
  }

  /** Adding only through the form never makes two names equal ignoring case. */
  lemma {:induction false} SessionKeepsNamesUnique(list: seq<Entry>, subs: seq<Submission>)
    requires NamesUnique(list)
    ensures NamesUnique(AfterSaves(list, subs))
    decreases |subs|
  {
    if subs != [] {
      var s := subs[0];
      if Validate(s.nameText, s.descText, Some(list), s.icon).Saved? {
        SavedKeepsNamesUnique(s.nameText, s.descText, list, s.icon);
      }
      SessionKeepsNamesUnique(AfterSave(list, s), subs[1..]);
    }
  }

  /** Adding only through the form, with the form's icons, keeps every record well formed. */
  lemma {:induction false} SessionKeepsWellFormed(list: seq<Entry>, subs: seq<Submission>)
    requires forall e :: e in list ==> WellFormed(e)
    requires forall s :: s in subs ==> IsTrainingIcon(s.icon)
    ensures forall e :: e in AfterSaves(list, subs) ==> WellFormed(e)
    decreases |subs|
  {
    if subs != [] {
      var s := subs[0];
      if Validate(s.nameText, s.descText, Some(list), s.icon).Saved? {
        SavedEntryWellFormed(s.nameText, s.descText, Some(list), s.icon);
      }
      assert forall t :: t in subs[1..] ==> t in subs;
      SessionKeepsWellFormed(AfterSave(list, s), subs[1..]);
    }
  }

  /** One save, then the rest: the first save's record leads the accepted ones. */
  lemma AcceptedUnfold(list: seq<Entry>, subs: seq<Submission>)
    requires subs != []
    ensures AfterSaves(list, subs) == AfterSaves(list + Created(list, subs[0]), subs[1..])
    ensures Accepted(list, subs) == Created(list, subs[0]) + Accepted(list + Created(list, subs[0]), subs[1..])
  {
  }

  /** The list after the saves is the old list followed by the records they created. */
  lemma {:induction false} SessionIsListThenAccepted(list: seq<Entry>, subs: seq<Submission>)
    ensures AfterSaves(list, subs) == list + Accepted(list, subs)
    decreases |subs|
  {
    if subs != [] {
      var created := Created(list, subs[0]);
      AcceptedUnfold(list, subs);
      SessionIsListThenAccepted(list + created, subs[1..]);
      assert (list + created) + Accepted(list + created, subs[1..]) == list + (created + Accepted(list + created, subs[1..]));
    }
  }

  /**
   * Saves only append, in call order: the list after the saves is the old
   * list followed by the records the accepted saves created, one for each
   * accepted save.
   */
  lemma {:induction false} SessionAppendsAccepted(list: seq<Entry>, subs: seq<Submission>)
    ensures AfterSaves(list, subs) == list + Accepted(list, subs)
    ensures list <= AfterSaves(list, subs)
    ensures |AfterSaves(list, subs)| == |list| + AcceptedCount(list, subs)
    decreases |subs|
  {
    SessionIsListThenAccepted(list, subs);
    if subs != [] {
      SessionAppendsAccepted(AfterSave(list, subs[0]), subs[1..]);
    }
  }

  /**
   * From a fresh install, any series of saves leaves the four seeds followed
   * by the records the accepted saves created, in call order: 4 plus the
   * accepted saves entries, whose names are pairwise different ignoring case.
   */
  lemma FreshInstallSession(subs: seq<Submission>)
    ensures StartupSource(None, None).entries == SeedList()
    ensures AfterSaves(SeedList(), subs) == SeedList() + Accepted(SeedList(), subs)
    ensures SeedList() <= AfterSaves(SeedList(), subs)
    ensures |AfterSaves(SeedList(), subs)| == 4 + AcceptedCount(SeedList(), subs)
    ensures NamesUnique(AfterSaves(SeedList(), subs))
  {
    SeedsUniqueAndWellFormed();
    SessionAppendsAccepted(SeedList(), subs);
    SessionKeepsNamesUnique(SeedList(), subs);
  }

  /**
   * On a fresh install, saving "pilates" is rejected and the error names
   * the existing "Pilates" as it is cased in the list; the list is unchanged.
   */
  lemma LowerCasePilatesRejected()
    ensures Validate(Some("pilates"), Some("x"), Some(SeedList()), IcVoleibol) == Rejected(DuplicateName("Pilates"))
    ensures AfterSave(SeedList(), Submission(Some("pilates"), Some("x"), IcVoleibol)) == SeedList()
  {
    var name := "pilates";
    TrimOfTrimmed(name);
    TrimOfTrimmed("x");
    assert FieldText(Some(name)) == name;
    assert FieldText(Some("x")) == "x";
    var seeded := Pilates().name;
    assert EqualsIgnoreCase(seeded, name) by {
      assert |seeded| == |name| == 7;
      assert CharEqualsIgnoreCase(seeded[0], name[0]);
      assert seeded[1..] == name[1..];
    }
    assert FirstMatch(SeedList(), name) == Some(0);
  }

  /** Saving " Yoga " on a fresh install is accepted with the name trimmed. */
  lemma YogaAccepted()
    ensures Validate(Some(" Yoga "), Some("Posturas"), Some(SeedList()), IcVoleibol)
            == Saved(Entry("Yoga", "Posturas", IcVoleibol))
  {
    var padded := " Yoga ";
    assert LeadingTrimmable(padded) == 1 by {
      assert padded[1..] == "Yoga ";
      assert LeadingTrimmable("Yoga ") == 0;
    }
    assert Trim(padded) == "Yoga" by {
      assert padded[1..] == "Yoga ";
      assert TrailingTrimmable("Yoga ") == 1 by {
        assert "Yoga "[..4] == "Yoga";
        assert TrailingTrimmable("Yoga") == 0;
      }
    }
    TrimOfTrimmed("Posturas");
    assert FirstMatch(SeedList(), "Yoga") == None;
  }

  // ---------------------------------------------------------------------
  // The screen
  // ---------------------------------------------------------------------

  class MainActivity {
    /** Wide (landscape) layout: list and detail side by side. Fixed at creation. */
    const isDualPane: bool
    /** The training list, shared by reference with the add dialog. */
    var entries: ArrayList<Entry>
    /** The persistent store's value. */
    var store: Option<seq<Entry>>
    var listVisible: bool
    var containerVisible: bool
    /** Depth of the fragment back stack. */
    var backStack: nat
    /** Whether the back-button callback is still enabled. */
    var backEnabled: bool
    /** The record the detail fragment in the container shows. */
    var detail: Option<Entry>
    /** Whether a back press has gone on to the platform's default action. */
    var fellThrough: bool

    /**
     * Creation and `onCreate`: the list comes from `StartupSource`; in the
     * dual-pane layout a non-empty list shows its first record; the back
     * callback starts enabled. `listVisible` and `containerVisible` are the
     * layout's initial visibilities.
     */
    constructor (savedState: Option<Bundle>, store: Option<seq<Entry>>, isDualPane: bool,
                 listVisible: bool, containerVisible: bool)
      ensures fresh(entries)
      ensures Startup(entries.elems, this.store) == StartupSource(savedState, store)
      ensures this.isDualPane == isDualPane
      ensures backEnabled && !fellThrough && backStack == 0
      ensures this.listVisible == listVisible
      ensures isDualPane && entries.elems != [] ==> detail == Some(entries.elems[0]) && this.containerVisible
      ensures !(isDualPane && entries.elems != []) ==> detail == None && this.containerVisible == containerVisible
    {
      this.isDualPane := isDualPane;
      this.listVisible := listVisible;
      this.containerVisible := containerVisible;
      backStack := 0;
      backEnabled := false;
      detail := None;
      fellThrough := false;
      var loaded := MainActivity.LoadEntries(savedState, store);
      entries := loaded;
      this.store := StartupSource(savedState, store).store;
      new;
      if isDualPane && |entries.elems| > 0 {
        ShowDetail(entries.elems[0]);
      }
      backEnabled := true;  // configurarBackNavigation registers an enabled callback
    }

    /**
     * The source priority of `onCreate`: the bundle's list if it holds one,
     * else the store's, else a new list of the seeds.
     */
    static method LoadEntries(savedState: Option<Bundle>, store: Option<seq<Entry>>) returns (list: ArrayList<Entry>)
      ensures fresh(list)
      ensures list.elems == StartupSource(savedState, store).entries
    {
      if HasSavedList(savedState) {
        list := new ArrayList(savedState.value[SavedListKey]);
      } else if store.Some? {
        list := new ArrayList(store.value);
      } else {
        list := InitEntries();
      }
    }

    /** `initEntrenamientos`: a new list holding the four seeds, in order. */
    static method InitEntries() returns (list: ArrayList<Entry>)
      ensures fresh(list)
      ensures list.elems == SeedList()
    {
      list := new ArrayList([]);
      list.Add(Pilates());
      list.Add(Voleibol());
      list.Add(Fuerza());
      list.Add(Running());
    }

    /**
     * `mostrarDetalle`: the container shows `e`. In the single-pane layout
     * the list is hidden and the transaction goes on the back stack; in the
     * dual-pane layout the list and the back stack are left alone.
     */
    method ShowDetail(e: Entry)
      modifies this
      ensures detail == Some(e) && containerVisible
      ensures !isDualPane ==> !listVisible && backStack == old(backStack) + 1
      ensures isDualPane ==> listVisible == old(listVisible) && backStack == old(backStack)
      ensures entries == old(entries) && store == old(store)
      ensures backEnabled == old(backEnabled) && fellThrough == old(fellThrough)
    {
      detail := Some(e);
      if !isDualPane {
        listVisible := false;
        containerVisible := true;
        backStack := backStack + 1;
      } else {
        containerVisible := true;
      }
    }

    /** A click on list row `position` shows that row's record. */
    method OnItemClick(position: nat)
      requires position < |entries.elems|
      modifies this
      ensures entries == old(entries) && store == old(store)
      ensures detail == Some(old(entries.elems)[position]) && containerVisible
      ensures !isDualPane ==> !listVisible && backStack == old(backStack) + 1
      ensures isDualPane ==> listVisible == old(listVisible) && backStack == old(backStack)
      ensures backEnabled == old(backEnabled) && fellThrough == old(fellThrough)
    {
      ShowDetail(entries.elems[position]);
    }

    /**
     * A back press. With the callback enabled, in the single-pane layout with
     * the container visible, it pops the back stack (a pop of an empty stack
     * does nothing), shows the list and hides the container. In every other
     * case the callback, if still enabled, disables itself for good, and the
     * press goes on to the platform's default action.
     */
    method HandleBackPressed()
      modifies this
      ensures old(backEnabled) && !isDualPane && old(containerVisible) ==>
        && backStack == (if old(backStack) > 0 then old(backStack) - 1 else 0)
        && listVisible && !containerVisible
        && backEnabled && fellThrough == old(fellThrough)
      ensures !(old(backEnabled) && !isDualPane && old(containerVisible)) ==>
        && !backEnabled && fellThrough
        && backStack == old(backStack)
        && listVisible == old(listVisible) && containerVisible == old(containerVisible)
      ensures detail == old(detail) && entries == old(entries) && store == old(store)
    {
      if !backEnabled {
        fellThrough := true;
      } else if !isDualPane && containerVisible {
        if backStack > 0 {
          backStack := backStack - 1;
        }
        listVisible := true;
        containerVisible := false;
      } else {
        backEnabled := false;
        fellThrough := true;
      }
    }

    /** `onEntrenamientoAdded`: appends in place, then saves the whole list. */
    method OnEntryAdded(e: Entry)
      modifies this, entries
      ensures entries == old(entries) && entries.elems == old(entries.elems) + [e]
      ensures store == Some(entries.elems)
      ensures listVisible == old(listVisible) && containerVisible == old(containerVisible)
      ensures backStack == old(backStack) && backEnabled == old(backEnabled)
      ensures detail == old(detail) && fellThrough == old(fellThrough)
    {
      entries.Add(e);
      store := Some(entries.elems);
    }

    /** `getEntrenamientosExistentes`: the live list itself, not a copy. */
    method GetExistingEntries() returns (list: ArrayList<Entry>)
      ensures list == entries
    {
      list := entries;
    }

    /**
     * The add button: a new dialog with this screen registered as its
     * listener, so the dialog checks duplicates against the live list.
     */
    method ShowAddDialog() returns (d: AddEntryDialog)
      ensures fresh(d) && d.Valid()
      ensures d.hasListener && d.existing == entries
      ensures d.selectedIconResId == IcPilates && d.delivered == [] && !d.dismissed
    {
      d := new AddEntryDialog();
      var lent := GetExistingEntries();
      d.SetOnEntryAddedListener(true, lent);
    }

    /**
     * A press of the dialog's save button, with the listener call it makes
     * (when this screen is the registered listener) delivered to
     * `OnEntryAdded`. The outcome is the dialog's; an accepted record is
     * appended and saved; names that were unique ignoring case stay so.
     */
    method SaveThroughDialog(d: AddEntryDialog, nameText: Option<string>, descText: Option<string>)
      returns (r: SaveOutcome)
      requires d.hasListener ==> d.existing == entries
      modifies d, this, entries
      ensures r == Validate(nameText, descText,
                            if old(d.existing) == null then None else Some(old(d.existing.elems)),
                            old(d.selectedIconResId))
      ensures entries == old(entries)
      ensures d.hasListener ==>
        entries.elems == AfterSave(old(entries.elems), Submission(nameText, descText, old(d.selectedIconResId)))
      ensures !d.hasListener ==> entries.elems == old(entries.elems)
      ensures r.Saved? && d.hasListener ==> entries.elems == old(entries.elems) + [r.entry]
      ensures r.Saved? && d.hasListener ==> store == Some(entries.elems)
      ensures !(r.Saved? && d.hasListener) ==> store == old(store)
      ensures NamesUnique(old(entries.elems)) ==> NamesUnique(entries.elems)
      ensures d.hasListener == old(d.hasListener) && d.existing == old(d.existing)
      ensures d.selectedIconResId == old(d.selectedIconResId)
      ensures r.Saved? ==> d.dismissed && d.delivered == old(d.delivered) + (if d.hasListener then [r.entry] else [])
      ensures r.Rejected? ==> d.dismissed == old(d.dismissed) && d.delivered == old(d.delivered)
      ensures listVisible == old(listVisible) && containerVisible == old(containerVisible)
      ensures backStack == old(backStack) && backEnabled == old(backEnabled)
      ensures detail == old(detail) && fellThrough == old(fellThrough)
    {
      r := d.OnSaveClicked(nameText, descText);
      if r.Saved? && d.hasListener {
        if NamesUnique(entries.elems) {
          SavedKeepsNamesUnique(nameText, descText, entries.elems, old(d.selectedIconResId));
        }
        OnEntryAdded(r.entry);
      }
    }

    /** `onSaveInstanceState`: the bundle gets a copy of the list under its key. */
    method OnSaveInstanceState(outState: Bundle) returns (saved: Bundle)
      ensures SavedListKey in saved && saved[SavedListKey] == entries.elems
      ensures forall k :: k in outState && k != SavedListKey ==> k in saved && saved[k] == outState[k]
    {
      saved := outState[SavedListKey := entries.elems];
    }

    /** `onPause`: saves the whole list again. */
    method OnPause()
      modifies this
      ensures store == Some(entries.elems)
      ensures entries == old(entries)
      ensures listVisible == old(listVisible) && containerVisible == old(containerVisible)
      ensures backStack == old(backStack) && backEnabled == old(backEnabled)
      ensures detail == old(detail) && fellThrough == old(fellThrough)
    {
      store := Some(entries.elems);
    }
  }

  /**
   * Single-pane scenario, from a fresh install: opening row 2 hides the list and
   * shows Fuerza; back returns to the list with the container hidden.
   */
  method SinglePaneScenario() {
    var a := new MainActivity(None, None, false, true, false);
    assert a.entries.elems == SeedList();
    a.OnItemClick(2);
    assert a.detail == Some(Fuerza()) && !a.listVisible && a.containerVisible && a.backStack == 1;
    a.HandleBackPressed();
    assert a.listVisible && !a.containerVisible && a.backStack == 0 && a.backEnabled;
    a.HandleBackPressed();
    assert !a.backEnabled && a.fellThrough;
  }

  /**
   * Dual-pane scenario, from a fresh install: the first record is shown at once;
   * opening row 1 then row 3 replaces the detail, the list stays visible
   * and the back stack stays empty.
   */
  method DualPaneScenario() {
    var a := new MainActivity(None, None, true, true, true);
    assert a.detail == Some(Pilates());
    a.OnItemClick(1);
    assert a.detail == Some(Voleibol());
    a.OnItemClick(3);
    assert a.detail == Some(Running()) && a.listVisible && a.containerVisible && a.backStack == 0;
  }

  /**
   * Add-form scenario, from a fresh install: "pilates" is rejected with the
   * existing name, the list stays as it was and the dialog stays open.
   */
  method AddDuplicateScenario() {
    var a := new MainActivity(None, None, false, true, false);
    var d := a.ShowAddDialog();
    LowerCasePilatesRejected();
    d.OnIconClicked(IvIconVoleibol);
    var r := a.SaveThroughDialog(d, Some("pilates"), Some("x"));
    assert r == Rejected(DuplicateName("Pilates"));
    assert a.entries.elems == SeedList() && !d.dismissed;
  }

  /**
   * Add-form scenario, from a fresh install: " Yoga " is accepted trimmed, with the
   * chosen icon, appended after the seeds and saved, and the dialog closes.
   */
  method AddAcceptedScenario() {
    var a := new MainActivity(None, None, false, true, false);
    var d := a.ShowAddDialog();
    d.OnIconClicked(IvIconVoleibol);
    assert d.existing == a.entries && a.entries.elems == SeedList() && d.selectedIconResId == IcVoleibol;
    var r := a.SaveThroughDialog(d, Some(" Yoga "), Some("Posturas"));
    YogaAccepted();
    assert r == Saved(Entry("Yoga", "Posturas", IcVoleibol));
    assert a.entries.elems == SeedList() + [Entry("Yoga", "Posturas", IcVoleibol)];
    assert a.store == Some(a.entries.elems) && d.dismissed;
  }

  /**
   * Single-pane scenario in which the screen outlives a fall-through: the
   * callback stays disabled, so after opening a record a back press no
   * longer restores the list.
   */
  method BackAfterFallThroughScenario() {
    var a := new MainActivity(None, None, false, true, false);
    a.HandleBackPressed();
    assert !a.backEnabled && a.fellThrough;
    a.OnItemClick(0);
    a.HandleBackPressed();
    assert !a.listVisible && a.containerVisible && a.backStack == 1;
  }
}
