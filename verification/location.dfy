/** The cascading division → zilla → upzilla selects of the registration form. The
    location table is bundled with the client and never changes; its contents are a
    parameter here. */
module Location {
  import opened Common
  import opened Lookup

  /** A zilla (district) and the names of its upzillas (sub-districts). */
  datatype Zilla = Zilla(name: string, upzillas: seq<string>)
  /** A division and its zillas. */
  datatype Division = Division(division: string, zillas: seq<Zilla>)

  /** The state behind the three selects. */
  datatype Selector = Selector(
    selectedDivision: string,
    selectedZilla: string,
    zillas: seq<Zilla>,
    upzillas: seq<string>)

  /** Nothing chosen and no options offered. */
  const Initial := Selector("", "", [], [])

  /** The zillas of the first division in `table` named `name`, or none. */
  function ZillasOf(table: seq<Division>, name: string): (zs: seq<Zilla>)
    ensures (exists i :: 0 <= i < |table| && table[i].division == name && zs == table[i].zillas
                         && forall j :: 0 <= j < i ==> table[j].division != name)
         || ((forall i :: 0 <= i < |table| ==> table[i].division != name) && zs == [])
  {
    match FirstWhere(table, (d: Division) => d.division == name)
    case Some(i) => table[i].zillas
    case None => []
  }

  /** The upzillas of the first zilla in `zillas` named `name`, or none. */
  function UpzillasOf(zillas: seq<Zilla>, name: string): (us: seq<string>)
    ensures (exists i :: 0 <= i < |zillas| && zillas[i].name == name && us == zillas[i].upzillas
                         && forall j :: 0 <= j < i ==> zillas[j].name != name)
         || ((forall i :: 0 <= i < |zillas| ==> zillas[i].name != name) && us == [])
  {
    match FirstWhere(zillas, (z: Zilla) => z.name == name)
    case Some(i) => zillas[i].upzillas
    case None => []
  }

  /** Choosing a division: it becomes the selection, the chosen zilla and the
      upzilla options are cleared, and the zilla options are that division's. */
  function ChangeDivision(table: seq<Division>, st: Selector, division: string): (st': Selector)
    ensures st'.selectedDivision == division
    ensures st'.selectedZilla == "" && st'.upzillas == []
    ensures (exists i :: 0 <= i < |table| && table[i].division == division && st'.zillas == table[i].zillas
                         && forall j :: 0 <= j < i ==> table[j].division != division)
         || ((forall i :: 0 <= i < |table| ==> table[i].division != division) && st'.zillas == [])
  {
    Selector(division, "", ZillasOf(table, division), [])
  }

  /** Choosing a zilla: it becomes the selection and the upzilla options are those of
      the first offered zilla of that name; the division and the zilla options stay. */
  function ChangeZilla(st: Selector, zilla: string): (st': Selector)
    ensures st'.selectedZilla == zilla
    ensures st'.selectedDivision == st.selectedDivision && st'.zillas == st.zillas
    ensures (exists i :: 0 <= i < |st.zillas| && st.zillas[i].name == zilla && st'.upzillas == st.zillas[i].upzillas
                         && forall j :: 0 <= j < i ==> st.zillas[j].name != zilla)
         || ((forall i :: 0 <= i < |st.zillas| ==> st.zillas[i].name != zilla) && st'.upzillas == [])
  {
    st.(selectedZilla := zilla, upzillas := UpzillasOf(st.zillas, zilla))
  }

  /** The options on offer agree with the selections: the zilla options are the
      selected division's, and the upzilla options are the selected zilla's (or empty
      while no zilla is chosen). It is stated with the same lookups the handlers use,
      so the lemmas below are facts about which states the page can reach; what the
      lookups return is fixed by the first-match contracts of `ZillasOf` and
      `UpzillasOf`. */
  ghost predicate Consistent(table: seq<Division>, st: Selector) {
    && st.zillas == ZillasOf(table, st.selectedDivision)
    && (st.upzillas == UpzillasOf(st.zillas, st.selectedZilla) || (st.selectedZilla == "" && st.upzillas == []))
  }

  /** Unnamed divisions offer nothing, so the empty start state is consistent. */
  lemma InitialConsistent(table: seq<Division>)
    requires forall i :: 0 <= i < |table| ==> table[i].division != ""
    ensures Consistent(table, Initial)
  {
  }

  /** Choosing a division makes any state consistent. */
  lemma ChangeDivisionConsistent(table: seq<Division>, st: Selector, division: string)
    ensures Consistent(table, ChangeDivision(table, st, division))
  {
  }

  /** Choosing a zilla keeps a consistent state consistent. */
  lemma ChangeZillaConsistent(table: seq<Division>, st: Selector, zilla: string)
    requires Consistent(table, st)
    ensures Consistent(table, ChangeZilla(st, zilla))
  {
  }

  /** Choosing the same division again after choosing zillas restores the state the
      first choice produced: the zilla choice leaves no trace. */
  lemma ChangeDivisionForgetsZilla(table: seq<Division>, st: Selector, division: string, zilla: string)
    ensures ChangeDivision(table, ChangeZilla(ChangeDivision(table, st, division), zilla), division)
         == ChangeDivision(table, st, division)
  {
  }
}
