/** One person's profile columns and the value write that both commit paths share. */
module ProfileFields {
  import opened Options

  datatype Field =
    | DisplayName | ArabicName | Objective | Intro | PreferredTime | Gender | BirthDate | DrivingLicence
    | JobSearchStatus | Phone | Handle | Nationality | University | KuwaitiMother

  /** A column and whether its `written_at` is set. */
  datatype Cell = Cell(value: Option<string>, written: bool)
  type Profile = map<Field, Cell>

  function Get(profile: Profile, field: Field): Cell {
    if field in profile then profile[field] else Cell(None, false)
  }

  datatype Kind = CountryItem | UniversityItem
  datatype Item = Item(kind: Kind, code: Option<string>)

  /** What a column makes of a text: its canonical form, or a refusal by a check or by its type. */
  datatype Column = Accepts(text: string) | Violates | Rejects

  /** What does not change: the catalogue's items, their kinds and codes, and the columns. */
  datatype World = World(items: map<string, Item>, column: (Field, string) -> Column)

  predicate IsKuwaiti(world: World, profile: Profile) {
    var nationality := Get(profile, Nationality).value;
    nationality.Some? && nationality.value in world.items
    && world.items[nationality.value] == Item(CountryItem, Some("KW"))
  }

  /** The database trigger of the profile table would raise for this row. */
  predicate Trips(world: World, profile: Profile) {
    Get(profile, KuwaitiMother).value.Some? && IsKuwaiti(world, profile)
  }

  /** `Violated` is a check's error code, the row trigger's included; `Broken` any other database error. */
  datatype WriteResult = Stored(profile: Profile) | Refused | Violated | Broken

  function KindOf(field: Field): Kind { if field == Nationality then CountryItem else UniversityItem }

  predicate NeedsItem(field: Field, value: string) { field == Nationality || (field == University && value != "") }

  /** The catalogue lookup; a Kuwaiti nationality clears the mother's answer. */
  function Prepare(world: World, active: set<string>, profile: Profile, field: Field, value: string): WriteResult {
    if NeedsItem(field, value) then
      if !world.column(field, value).Accepts? then Broken
      else
        var id := world.column(field, value).text;
        if id !in active || id !in world.items || world.items[id].kind != KindOf(field) then Refused
        else if field == Nationality && world.items[id].code == Some("KW") then
          Stored(profile[KuwaitiMother := Cell(None, false)])
        else Stored(profile)
    else if field == KuwaitiMother && IsKuwaiti(world, profile) then Refused
    else Stored(profile)
  }

  function WriteValue(world: World, active: set<string>, profile: Profile, field: Field, value: string): WriteResult {
    var prepared := Prepare(world, active, profile, field, value);
    if !prepared.Stored? then prepared
    else if value == "" then Guarded(world, prepared.profile[field := Cell(None, true)])
    else
      match world.column(field, value)
      case Accepts(text) => Guarded(world, prepared.profile[field := Cell(Some(text), true)])
      case Violates => Violated
      case Rejects => Broken
  }

  /** The row trigger. */
  function Guarded(world: World, profile: Profile): WriteResult
  {
    if Trips(world, profile) then Violated else Stored(profile)
  }

  /** The nationality in this cell is the country with code KW. */
  predicate NamesKuwait(world: World, cell: Cell) {
    cell.value.Some? && cell.value.value in world.items
    && world.items[cell.value.value].kind == CountryItem && world.items[cell.value.value].code == Some("KW")
  }

  predicate KuwaitiRule(world: World, profile: Profile) {
    NamesKuwait(world, Get(profile, Nationality)) ==> Get(profile, KuwaitiMother) == Cell(None, false)
  }

  /** A Kuwaiti nationality leaves the mother's answer null and unwritten, whatever is written next. */
  lemma WriteKeepsKuwaitiRule(world: World, active: set<string>, profile: Profile, field: Field, value: string)
    requires KuwaitiRule(world, profile)
    ensures var r := WriteValue(world, active, profile, field, value); r.Stored? ==> KuwaitiRule(world, r.profile)
  {
  }

  /** Only columns refuse a write: the row trigger never raises. */
  lemma TriggerNeverRaises(world: World, active: set<string>, profile: Profile, field: Field, value: string)
    requires KuwaitiRule(world, profile)
    ensures var r, column := WriteValue(world, active, profile, field, value), world.column(field, value);
            var reached := value != "" && Prepare(world, active, profile, field, value).Stored?;
            && (r.Violated? <==> reached && column.Violates?)
            && (r.Broken? <==> (NeedsItem(field, value) && !column.Accepts?) || (reached && column.Rejects?))
  {
  }

  /** The catalogue offers the value: an active item of this kind. */
  predicate Offered(world: World, active: set<string>, kind: Kind, column: Column) {
    column.Accepts? && column.text in active && column.text in world.items && world.items[column.text].kind == kind
  }

  /** What each answer to a write means; a write that gets none of them is stored. */
  lemma WriteAnswers(world: World, active: set<string>, profile: Profile, field: Field, value: string)
    requires KuwaitiRule(world, profile)
    ensures var r, column := WriteValue(world, active, profile, field, value), world.column(field, value);
            var lookedUp := field == Nationality || (field == University && value != "");
            var kind := if field == Nationality then CountryItem else UniversityItem;
            var clash := field == KuwaitiMother && NamesKuwait(world, Get(profile, Nationality));
            && (r.Refused? <==> clash || (lookedUp && column.Accepts? && !Offered(world, active, kind, column)))
            && (r.Broken? <==> !clash && if lookedUp then !column.Accepts? else value != "" && column.Rejects?)
            && (r.Violated? <==> !clash && !lookedUp && value != "" && column.Violates?)
  {
  }

  /** The value is a Kuwaiti nationality's. */
  predicate EntersKuwait(world: World, field: Field, value: string) {
    var column := world.column(field, value);
    field == Nationality && column.Accepts? && NamesKuwait(world, Cell(Some(column.text), true))
  }

  /** What a field holds after a value was written to `field`, given what it held before. */
  function Entered(world: World, field: Field, value: string, other: Field, before: Cell): Cell {
    if other == field then
      Cell(if value == "" || !world.column(field, value).Accepts? then None
           else Some(world.column(field, value).text), true)
    else if other == KuwaitiMother && EntersKuwait(world, field, value) then Cell(None, false)
    else before
  }

  /** A stored write leaves in its own field exactly what was entered, and touches only the mother's answer besides. */
  lemma WriteTouches(world: World, active: set<string>, profile: Profile, field: Field, value: string, other: Field)
    requires WriteValue(world, active, profile, field, value).Stored?
    requires !world.column(Nationality, "").Accepts?  // a catalogue id is never the empty text
    ensures value != "" ==> world.column(field, value).Accepts?
    ensures var next := WriteValue(world, active, profile, field, value).profile;
            Get(next, other) == Entered(world, field, value, other, Get(profile, other))
  {
  }
}
