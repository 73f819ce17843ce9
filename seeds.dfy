/**
 * The four built-in trainings (`Pilates`, `Voleibol`, `Fuerza`, `Running`).
 * In the app each is a subclass of the training record whose no-argument
 * constructor passes fixed values to the base constructor and whose Parcel
 * constructor defers to the base one; here each is a constant record.
 */
module Seeds {
  import opened Java
  import opened Resources
  import opened Trainings

  // Each description is written as a short head plus the rest: the verifier
  // does not look inside a string literal this long, and the head lets it see
  // the first char that well-formedness needs.
  const PilatesDescription: string :=
    "Ejercicio de bajo impacto " + "que mejora la flexibilidad, fuerza muscular y postura corporal."
  const VoleibolDescription: string :=
    "Deporte de equipo " + "que mejora la coordinación, agilidad y trabajo en equipo."
  const FuerzaDescription: string :=
    "Entrenamiento con pesas " + "y resistencia para aumentar la masa muscular y la potencia."
  const RunningDescription: string :=
    "Carrera que mejora " + "la resistencia cardiovascular, quema calorías y fortalece las piernas."

  /** `new Pilates()`. */
  function Pilates(): (e: Entry)
    ensures e.name == "Pilates" && e.description == PilatesDescription && e.iconResId == IcPilates
    ensures WellFormed(e)
  {
    Entry("Pilates", PilatesDescription, IcPilates)
  }

  /** `new Voleibol()`. */
  function Voleibol(): (e: Entry)
    ensures e.name == "Voleibol" && e.description == VoleibolDescription && e.iconResId == IcVoleibol
    ensures WellFormed(e)
  {
    Entry("Voleibol", VoleibolDescription, IcVoleibol)
  }

  /** `new Fuerza()`. */
  function Fuerza(): (e: Entry)
    ensures e.name == "Fuerza" && e.description == FuerzaDescription && e.iconResId == IcFuerza
    ensures WellFormed(e)
  {
    Entry("Fuerza", FuerzaDescription, IcFuerza)
  }

  /** `new Running()`. */
  function Running(): (e: Entry)
    ensures e.name == "Running" && e.description == RunningDescription && e.iconResId == IcRunning
    ensures WellFormed(e)
  {
    Entry("Running", RunningDescription, IcRunning)
  }

  /** The seed list, in the order the main screen adds the seeds. */
  function SeedList(): seq<Entry> {
    [Pilates(), Voleibol(), Fuerza(), Running()]
  }

  /**
   * The seeds could all have been entered through the add form: they are
   * well formed and no two names are equal ignoring case.
   */
  lemma SeedsUniqueAndWellFormed()
    ensures |SeedList()| == 4
    ensures NamesUnique(SeedList())
    ensures forall e :: e in SeedList() ==> WellFormed(e)
  {
    var seeds := SeedList();
    var names := [Pilates().name, Voleibol().name, Fuerza().name, Running().name];
    assert |names[0]| == 7 && |names[1]| == 8 && |names[2]| == 6 && |names[3]| == 7;
    assert !EqualsIgnoreCase(names[0], names[3]) by {
      assert names[0][0] == 'P' && names[3][0] == 'R';
      assert !CharEqualsIgnoreCase(names[0][0], names[3][0]);
    }
    forall i, j | 0 <= i < j < |seeds|
      ensures !EqualsIgnoreCase(seeds[i].name, seeds[j].name)
    {
      assert seeds[i].name == names[i] && seeds[j].name == names[j];
    }
  }

}
