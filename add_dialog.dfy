/**
 * The add-training form (`AddEntrenamientoDialogFragment`): an icon picker
 * with four options, and a save button that trims both text fields, rejects
 * an empty name, then an empty description, then a name already present
 * ignoring case, and otherwise hands a new record to its listener once and
 * closes.
 */
module AddDialog {
  import opened Java
  import opened Resources
  import opened Trainings

  /** The error a rejected save shows (the app shows it in a toast). */
  datatype SaveError =
    | EmptyName
    | EmptyDescription
    | DuplicateName(existingName: string)  // the existing entry's name, as it is cased there

  datatype SaveOutcome = Saved(entry: Entry) | Rejected(error: SaveError)

  /** A text field's content: trimmed, and empty when the field yields null. */
  function FieldText(text: Option<string>): string {
    if text.Some? then Trim(text.value) else ""
  }

  // ---------------------------------------------------------------------
  // Icon picker
  // ---------------------------------------------------------------------

  /**
   * The icon selected after a click on view `viewId` when `current` was
   * selected: each of the four icon views selects its own drawable, any
   * other view leaves the selection alone.
   */
  function IconAfterClick(viewId: int32, current: int32): (r: int32)
    ensures viewId == IvIconPilates ==> r == IcPilates
    ensures viewId == IvIconVoleibol ==> r == IcVoleibol
    ensures viewId == IvIconFuerza ==> r == IcFuerza
    ensures viewId == IvIconRunning ==> r == IcRunning
    ensures !IsIconView(viewId) ==> r == current
    ensures IsTrainingIcon(current) ==> IsTrainingIcon(r)
  {
    if viewId == IvIconPilates then IcPilates
    else if viewId == IvIconVoleibol then IcVoleibol
    else if viewId == IvIconFuerza then IcFuerza
    else if viewId == IvIconRunning then IcRunning
    else current
  }

  // ---------------------------------------------------------------------
  // Save validation
  // ---------------------------------------------------------------------

  /** Index of the first entry whose name equals `name` ignoring case. */
  function FirstMatch(existing: seq<Entry>, name: string): (r: Option<nat>)
    ensures r.Some? ==> r.value < |existing| && EqualsIgnoreCase(existing[r.value].name, name)
    ensures r.Some? ==> forall j :: 0 <= j < r.value ==> !EqualsIgnoreCase(existing[j].name, name)
    ensures r.None? <==> forall j :: 0 <= j < |existing| ==> !EqualsIgnoreCase(existing[j].name, name)
  {
    if existing == [] then None
    else if EqualsIgnoreCase(existing[0].name, name) then Some(0)
    else match FirstMatch(existing[1..], name)
      case None => None
      case Some(k) => Some(k + 1)
  }

  /**
   * The save button, as a function of the two text fields, the list the
   * listener lent (`None` when it is null) and the selected icon.
   */
  function Validate(nameText: Option<string>, descText: Option<string>,
                    existing: Option<seq<Entry>>, icon: int32): (r: SaveOutcome)
    // first failure wins: an empty name, then an empty description ...
    ensures r == Rejected(EmptyName) <==> FieldText(nameText) == []
    ensures r == Rejected(EmptyDescription) <==> FieldText(nameText) != [] && FieldText(descText) == []
    // ... then a name already in the list, reported as the first such entry has it
    ensures (r.Rejected? && r.error.DuplicateName?) <==>
      && FieldText(nameText) != [] && FieldText(descText) != [] && existing.Some?
      && exists i :: 0 <= i < |existing.value| && EqualsIgnoreCase(existing.value[i].name, FieldText(nameText))
    ensures r.Rejected? && r.error.DuplicateName? ==>
      exists i :: && 0 <= i < |existing.value|
                  && EqualsIgnoreCase(existing.value[i].name, FieldText(nameText))
                  && r.error.existingName == existing.value[i].name
                  && forall j :: 0 <= j < i ==> !EqualsIgnoreCase(existing.value[j].name, FieldText(nameText))
    // otherwise the trimmed fields and the selected icon make the new record
    ensures r.Saved? ==> r.entry == Entry(FieldText(nameText), FieldText(descText), icon)
  {
    var name := FieldText(nameText);
    var description := FieldText(descText);
    if name == [] then Rejected(EmptyName)
    else if description == [] then Rejected(EmptyDescription)
    else if existing.Some? && FirstMatch(existing.value, name).Some? then
      Rejected(DuplicateName(existing.value[FirstMatch(existing.value, name).value].name))
    else Saved(Entry(name, description, icon))
  }

  /** A record the form accepts, made with one of the four icons, is well formed. */
  lemma SavedEntryWellFormed(nameText: Option<string>, descText: Option<string>,
                             existing: Option<seq<Entry>>, icon: int32)
    requires IsTrainingIcon(icon)
    requires Validate(nameText, descText, existing, icon).Saved?
    ensures WellFormed(Validate(nameText, descText, existing, icon).entry)
  {
  }

  /**
   * Accepting a record keeps the names of the checked list unique: the new
   * name matches none of them ignoring case.
   */
  lemma SavedKeepsNamesUnique(nameText: Option<string>, descText: Option<string>,
                              list: seq<Entry>, icon: int32)
    requires NamesUnique(list)
    requires Validate(nameText, descText, Some(list), icon).Saved?
    ensures NamesUnique(list + [Validate(nameText, descText, Some(list), icon).entry])
  {
    var e := Validate(nameText, descText, Some(list), icon).entry;
    var after := list + [e];
    forall i, j | 0 <= i < j < |after|
      ensures !EqualsIgnoreCase(after[i].name, after[j].name)
    {
      if j == |list| {
        assert after[i] == list[i] && after[j] == e;
      } else {
        assert after[i] == list[i] && after[j] == list[j];
      }
    }
  }

  /** A match at `i` with none before it is the first match. */
  lemma {:induction false} FirstMatchAt(existing: seq<Entry>, name: string, i: nat)
    requires i < |existing| && EqualsIgnoreCase(existing[i].name, name)
    requires forall j :: 0 <= j < i ==> !EqualsIgnoreCase(existing[j].name, name)
    ensures FirstMatch(existing, name) == Some(i)
    decreases i
  {
    if i > 0 {
      FirstMatchAt(existing[1..], name, i - 1);
    }
  }

  /**
   * The duplicate search of the save button: walks the list in order and
   * stops at the first name equal to `name` ignoring case, giving that
   * entry's own name.
   */
  method FindDuplicate(existing: seq<Entry>, name: string) returns (found: Option<string>)
    ensures found.None? <==> FirstMatch(existing, name).None?
    ensures found.Some? ==> found.value == existing[FirstMatch(existing, name).value].name
  {
    for i := 0 to |existing|
      invariant forall j :: 0 <= j < i ==> !EqualsIgnoreCase(existing[j].name, name)
    {
      if EqualsIgnoreCase(existing[i].name, name) {
        FirstMatchAt(existing, name, i);
        return Some(existing[i].name);
      }
    }
    return None;
  }

  /**
   * The dialog. `delivered` records the calls made to the listener's
   * `onEntrenamientoAdded`, in order; `hasListener` says whether a listener
   * is registered; `existing` is the list the listener lent, by reference.
   */
  class AddEntryDialog {
    var selectedIconResId: int32
    var hasListener: bool
    var existing: ArrayList?<Entry>
    var delivered: seq<Entry>
    var dismissed: bool

    /** The selection is always one of the four training icons. */
    ghost predicate Valid()
      reads this
    {
      IsTrainingIcon(selectedIconResId)
    }

    /** A new dialog: Pilates selected, no listener, no list, nothing delivered. */
    constructor ()
      ensures Valid()
      ensures selectedIconResId == IcPilates
      ensures !hasListener && existing == null && delivered == [] && !dismissed
    {
      selectedIconResId := IcPilates;
      hasListener := false;
      existing := null;
      delivered := [];
      dismissed := false;
    }

    /**
     * `setOnEntrenamientoAddedListener`: registers the listener (or clears
     * it, `present == false` standing for null); a registered listener is
     * asked for its list, here `lent`, which the dialog keeps by reference.
     */
    method SetOnEntryAddedListener(present: bool, lent: ArrayList?<Entry>)
      modifies this
      ensures hasListener == present
      ensures existing == if present then lent else old(existing)
      ensures selectedIconResId == old(selectedIconResId)
      ensures delivered == old(delivered) && dismissed == old(dismissed)
    {
      hasListener := present;
      if present {
        existing := lent;
      }
    }

    /** The shared click handler of the four icon views. */
    method OnIconClicked(viewId: int32)
      requires Valid()
      modifies this
      ensures Valid()
      ensures selectedIconResId == IconAfterClick(viewId, old(selectedIconResId))
      ensures hasListener == old(hasListener) && existing == old(existing)
      ensures delivered == old(delivered) && dismissed == old(dismissed)
    {
      if viewId == IvIconPilates {
        selectedIconResId := IcPilates;
      } else if viewId == IvIconVoleibol {
        selectedIconResId := IcVoleibol;
      } else if viewId == IvIconFuerza {
        selectedIconResId := IcFuerza;
      } else if viewId == IvIconRunning {
        selectedIconResId := IcRunning;
      }
    }

    /** The cancel button: closes the dialog and tells the listener nothing. */
    method OnCancelClicked()
      modifies this
      ensures dismissed
      ensures delivered == old(delivered)
      ensures selectedIconResId == old(selectedIconResId)
      ensures hasListener == old(hasListener) && existing == old(existing)
    {
      dismissed := true;
    }

    /**
     * The save button. `nameText` and `descText` are what the two fields
     * yield (`None` for null). The outcome is `Validate` of the fields, the
     * lent list as it is now and the selected icon. A rejection changes
     * nothing; an acceptance hands the record to the listener exactly once
     * (when there is one) and closes the dialog.
     */
    method OnSaveClicked(nameText: Option<string>, descText: Option<string>) returns (r: SaveOutcome)
      modifies this
      ensures r == Validate(nameText, descText,
                            if existing == null then None else Some(existing.elems),
                            selectedIconResId)
      ensures r.Saved? ==> dismissed && delivered == old(delivered) + (if hasListener then [r.entry] else [])
      ensures r.Rejected? ==> dismissed == old(dismissed) && delivered == old(delivered)
      ensures selectedIconResId == old(selectedIconResId)
      ensures hasListener == old(hasListener) && existing == old(existing)
    {
      var name := FieldText(nameText);
      var description := FieldText(descText);
      if name == [] {
        return Rejected(EmptyName);
      }
      if description == [] {
        return Rejected(EmptyDescription);
      }
      if existing != null {
        var duplicate := FindDuplicate(existing.elems, name);
        if duplicate.Some? {
          return Rejected(DuplicateName(duplicate.value));
        }
      }
      var created := Entry(name, description, selectedIconResId);
      if hasListener {
        delivered := delivered + [created];
      }
      dismissed := true;
      return Saved(created);
    }
  }
}
