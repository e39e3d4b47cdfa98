/**
 * The lookup service's routes as pure queries over the in-memory table.
 *
 * The table is the list of rows `load_data` produced, in file order, every
 * field already a stripped string. A JSON criterion that is absent, null or ""
 * is passed as "", and a criterion constrains its column only when it is
 * non-empty (Python truthiness).
 */
module AnimalData {
  import opened Wrappers
  import opened Seqs
  import opened Text
  import opened Protocol

  /** One row of the table, with the normalised column names. */
  datatype Row = Row(
    animal: string,
    animalClass: string,
    scientificName: string,
    sound: string,
    emotionLabel: string,
    contextTrigger: string)

  function ClassOf(row: Row): string { row.animalClass }
  function AnimalOf(row: Row): string { row.animal }
  function SoundOf(row: Row): string { row.sound }
  function PairOf(row: Row): NamePair { NamePair(row.animal, row.scientificName) }

  const NoDataAvailable := "No data available"
  const NoInformation := "No information found for this combination"

  // ---------------------------------------------------------------------------
  // Criteria
  // ---------------------------------------------------------------------------

  /** `if criterion: df = df[df[column] == criterion]`: a blank criterion keeps every row. */
  predicate Given(criterion: string, value: string) {
    criterion == "" || value == criterion
  }

  /** The optional equality criteria of `get_sounds`, `get_result` and `get_call_for`. */
  datatype Query = Query(animalClass: string, englishName: string, scientificName: string, sound: string)

  /** The row passes every criterion of `q` that is given. */
  predicate Keeps(q: Query, row: Row) {
    && Given(q.animalClass, row.animalClass)
    && Given(q.englishName, row.animal)
    && Given(q.scientificName, row.scientificName)
    && Given(q.sound, row.sound)
  }

  function Kept(q: Query): Row -> bool { row => Keeps(q, row) }

  /** `narrow` gives every criterion `wide` gives, with the same value, and possibly more. */
  predicate Narrows(narrow: Query, wide: Query) {
    && (wide.animalClass == "" || narrow.animalClass == wide.animalClass)
    && (wide.englishName == "" || narrow.englishName == wide.englishName)
    && (wide.scientificName == "" || narrow.scientificName == wide.scientificName)
    && (wide.sound == "" || narrow.sound == wide.sound)
  }

  /** The query `get_sounds` builds from its body; it has no sound criterion. */
  function SoundsQuery(animalClass: string, englishName: string, scientificName: string): Query {
    Query(animalClass, englishName, scientificName, "")
  }

  /** The query `get_call_for` builds from its body. */
  function CallForQuery(animal: string, sound: string): Query {
    Query("", animal, "", sound)
  }

  // ---------------------------------------------------------------------------
  // Routes
  // ---------------------------------------------------------------------------

  /** The two lists the home page is rendered with. */
  datatype HomeLists = HomeLists(classes: seq<string>, animals: seq<string>)

  /** `home`: every class and every animal name of the table, sorted and distinct. */
  function Home(table: seq<Row>): (r: HomeLists)
    ensures Sorted(r.classes) && NoDuplicates(r.classes)
    ensures forall c :: c in r.classes <==> exists row :: row in table && row.animalClass == c
    ensures Sorted(r.animals) && NoDuplicates(r.animals)
    ensures forall a :: a in r.animals <==> exists row :: row in table && row.animal == a
  {
    if table == [] then HomeLists([], [])
    else HomeLists(SortedUnique(Map(table, ClassOf)), SortedUnique(Map(table, AnimalOf)))
  }

  function Named(animalName: string): Row -> bool { (row: Row) => row.animal == animalName }

  /** `get_sounds_legacy`: the distinct sounds of the rows whose animal is exactly `animalName`, sorted. */
  function GetSoundsLegacy(table: seq<Row>, animalName: string): (r: seq<string>)
    ensures Sorted(r) && NoDuplicates(r)
    ensures forall s :: s in r <==> exists row :: row in table && row.animal == animalName && row.sound == s
    ensures table == [] ==> r == []
  {
    if table == [] then []
    else
      MapWhereMembership(table, Named(animalName), SoundOf);
      SortedUnique(Map(Where(table, Named(animalName)), SoundOf))
  }

  /**
   * `get_sounds`: the distinct sounds of the rows that pass every given
   * criterion among class, english name and scientific name, sorted.
   */
  function GetSounds(table: seq<Row>, animalClass: string, englishName: string, scientificName: string): (r: seq<string>)
    ensures Sorted(r) && NoDuplicates(r)
    ensures forall s :: s in r <==>
      exists row :: row in table && Keeps(SoundsQuery(animalClass, englishName, scientificName), row) && row.sound == s
    ensures table == [] ==> r == []
  {
    if table == [] then []
    else
      var kept := Where(table, Kept(SoundsQuery(animalClass, englishName, scientificName)));
      MapWhereMembership(table, Kept(SoundsQuery(animalClass, englishName, scientificName)), SoundOf);
      if kept == [] then [] else SortedUnique(Map(kept, SoundOf))
  }

  /**
   * `get_call_for`: the context of the first row, in table order, with the
   * given animal and sound; the fallback text when there is none, or when that
   * context is empty; a distinct text when the table is empty.
   */
  function GetCallFor(table: seq<Row>, animal: string, sound: string): (r: string)
    ensures r != ""
    ensures table == [] ==> r == NoDataAvailable
    ensures table != [] && (forall row :: row in table ==> !Keeps(CallForQuery(animal, sound), row)) ==>
      r == NoInformation
    ensures table != [] ==> forall i :: IsFirst(table, Kept(CallForQuery(animal, sound)), i) ==>
      r == if table[i].contextTrigger != "" then table[i].contextTrigger else NoInformation
  {
    if table == [] then NoDataAvailable
    else
      match Find(table, Kept(CallForQuery(animal, sound)))
      case None => NoInformation
      case Some(row) => if row.contextTrigger != "" then row.contextTrigger else NoInformation
  }

  function InClass(animalClass: string): Row -> bool { (row: Row) => row.animalClass == animalClass }

  /**
   * `get_animals_by_class`: the distinct (english, scientific) pairs of the
   * rows of exactly that class, in non-decreasing english-name order.
   */
  function GetAnimalsByClass(table: seq<Row>, animalClass: string): (r: seq<NamePair>)
    ensures NoDuplicates(r)
    ensures SortedBy(r, EnglishOf)
    ensures forall p :: p in r <==> exists row :: row in table && row.animalClass == animalClass && PairOf(row) == p
    ensures (forall row :: row in table ==> row.animalClass != animalClass) ==> r == []
  {
    if table == [] then []
    else
      var rows := Where(table, InClass(animalClass));
      assert rows != [] ==> rows[0] in rows;
      MapWhereMembership(table, InClass(animalClass), PairOf);
      if rows == [] then [] else SortBy(Dedup(Map(rows, PairOf)), EnglishOf)
  }

  /** The row lies in the class filter (when given) and has `name` as either name, ignoring case. */
  predicate Resolves(animalClass: string, name: string, row: Row) {
    && Given(animalClass, row.animalClass)
    && (CaseFold(row.animal) == CaseFold(name) || CaseFold(row.scientificName) == CaseFold(name))
  }

  function ResolvedBy(animalClass: string, name: string): Row -> bool { row => Resolves(animalClass, name, row) }

  /**
   * `get_animal_by_name`: the pair of the first row, in table order, that
   * `Resolves` the stripped name; nothing for a blank name, an empty table or
   * no match.
   */
  function GetAnimalByName(table: seq<Row>, name: string, animalClass: string): (r: Option<NamePair>)
    ensures table == [] || IsBlank(name) ==> r == None
    ensures r.Some? <==> !IsBlank(name) && exists row :: row in table && Resolves(animalClass, Strip(name), row)
    ensures r.Some? ==> exists i :: IsFirst(table, ResolvedBy(animalClass, Strip(name)), i) && r.value == PairOf(table[i])
  {
    if table == [] then None
    else
      var n := Strip(name);
      if n == "" then None
      else
        match Find(table, ResolvedBy(animalClass, n))
        case None => None
        case Some(row) => Some(PairOf(row))
  }

  /** The query `get_result` builds from its body. */
  function ResultQuery(animalClass: string, englishName: string, scientificName: string, sound: string): Query {
    Query(animalClass, englishName, scientificName, sound)
  }

  /**
   * `get_result`: the emotion label and context of the first row, in table
   * order, that passes every given criterion; nothing when no row does.
   */
  function GetResult(table: seq<Row>, animalClass: string, englishName: string, scientificName: string, sound: string)
    : (r: Option<EmotionResult>)
    ensures r.Some? <==> exists row :: row in table && Keeps(ResultQuery(animalClass, englishName, scientificName, sound), row)
    ensures r.Some? ==>
      exists i :: IsFirst(table, Kept(ResultQuery(animalClass, englishName, scientificName, sound)), i) &&
                  r.value == EmotionResult(table[i].emotionLabel, table[i].contextTrigger)
  {
    if table == [] then None
    else
      match Find(table, Kept(ResultQuery(animalClass, englishName, scientificName, sound)))
      case None => None
      case Some(row) => Some(EmotionResult(row.emotionLabel, row.contextTrigger))
  }

  // ---------------------------------------------------------------------------
  // Properties relating the routes
  // ---------------------------------------------------------------------------

  /** Adding (or keeping) criteria never adds a sound to `get_sounds`. */
  lemma GetSoundsNarrowing(table: seq<Row>, wide: Query, narrow: Query)
    requires wide.sound == "" && narrow.sound == ""
    requires Narrows(narrow, wide)
    ensures forall s :: s in GetSounds(table, narrow.animalClass, narrow.englishName, narrow.scientificName) ==>
                        s in GetSounds(table, wide.animalClass, wide.englishName, wide.scientificName)
  {
    forall s | s in GetSounds(table, narrow.animalClass, narrow.englishName, narrow.scientificName)
      ensures s in GetSounds(table, wide.animalClass, wide.englishName, wide.scientificName)
    {
      var row :| row in table && Keeps(narrow, row) && row.sound == s;
      assert Keeps(wide, row);
    }
  }

  /**
   * A result lookup that names a sound finds a row exactly when that sound is
   * among those `get_sounds` lists for the same class and names: the page only
   * offers listed sounds, so its lookups succeed.
   */
  lemma ResultFoundIffSoundListed(table: seq<Row>, animalClass: string, englishName: string, scientificName: string, sound: string)
    requires sound != ""
    ensures GetResult(table, animalClass, englishName, scientificName, sound).Some? <==>
            sound in GetSounds(table, animalClass, englishName, scientificName)
  {
    var q := ResultQuery(animalClass, englishName, scientificName, sound);
    var sq := SoundsQuery(animalClass, englishName, scientificName);
    assert forall row :: Keeps(q, row) <==> Keeps(sq, row) && row.sound == sound;
  }

  /** Every animal `get_animals_by_class` lists has at least one sound under `get_sounds`. */
  lemma ListedAnimalsHaveSounds(table: seq<Row>, animalClass: string, p: NamePair)
    requires p in GetAnimalsByClass(table, animalClass)
    ensures GetSounds(table, animalClass, p.englishName, p.scientificName) != []
  {
    var row :| row in table && row.animalClass == animalClass && PairOf(row) == p;
    assert Keeps(SoundsQuery(animalClass, p.englishName, p.scientificName), row);
    assert row.sound in GetSounds(table, animalClass, p.englishName, p.scientificName);
  }

  /** Every listed animal resolves by its english name, within its class, to a row with that name. */
  lemma ListedAnimalsResolve(table: seq<Row>, animalClass: string, p: NamePair)
    requires p in GetAnimalsByClass(table, animalClass)
    requires !IsBlank(p.englishName) && Strip(p.englishName) == p.englishName
    ensures GetAnimalByName(table, p.englishName, animalClass).Some?
  {
    var row :| row in table && row.animalClass == animalClass && PairOf(row) == p;
    assert Resolves(animalClass, Strip(p.englishName), row);
  }

  /**
   * The name lookup ignores case: two names that differ only in the case of
   * their letters resolve to the same pair, or both to nothing.
   */
  lemma ByNameIgnoresCase(table: seq<Row>, a: string, b: string, animalClass: string)
    requires SameUpToCase(a, b)
    ensures GetAnimalByName(table, a, animalClass) == GetAnimalByName(table, b, animalClass)
  {
    StripAgrees(a, b);
    var na, nb := Strip(a), Strip(b);
    CaseFoldAgrees(na, nb);
    assert forall i :: 0 <= i < |table| ==>
      ResolvedBy(animalClass, na)(table[i]) == ResolvedBy(animalClass, nb)(table[i]);
    FindSame(table, ResolvedBy(animalClass, na), ResolvedBy(animalClass, nb));
  }
}
