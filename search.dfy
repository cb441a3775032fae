/**
 * The two search filters: the dashboard's people search (the `filtered`
 * memo) and the map's place search (the `places` and `placesFiltered` memos).
 * `fold` stands for `toLowerCase`, applied character by character.
 */
module Search {
  import opened Text
  import opened Lists
  import opened People

  /** The query as both filters compare it: trimmed, then lowered. */
  function NormalizeQuery(fold: char -> char, query: string): (q: string)
    ensures q == [] <==> AllWhite(query)
    ensures q == Lower(fold, Trim(query))
  {
    Lower(fold, Trim(query))
  }

  /** `[p.name, p.name_en].filter(Boolean).join(" ")`: absent and empty names are dropped. */
  function NameAll(p: Person): string {
    Join(" ", Filter([p.name] + (if p.nameEn.Some? then [p.nameEn.value] else []), (s: string) => s != ""))
  }

  /** With both names present and non-empty, they are joined by one space. */
  lemma NameAllBoth(p: Person)
    requires p.name != "" && p.nameEn.Some? && p.nameEn.value != ""
    ensures NameAll(p) == p.name + " " + p.nameEn.value
  {
    var parts := [p.name, p.nameEn.value];
    assert parts[1..] == [p.nameEn.value];
    assert Filter(parts, (s: string) => s != "") == parts;
    assert Join(" ", parts[1..]) == p.nameEn.value;
  }

  /** `[...p.fields, ...(p.fields_en || [])].join(" ")`: empty labels are kept. */
  function FieldsAll(p: Person): string {
    Join(" ", p.fields + p.fieldsEn.GetOr([]))
  }

  /** `(p.city || "")`. */
  function CityText(p: Person): string {
    p.city.GetOr("")
  }

  /** The people search's test of one record against the normalized query `q`. */
  predicate PersonMatches(fold: char -> char, p: Person, q: string) {
    Includes(Lower(fold, NameAll(p)), q) || Includes(Lower(fold, FieldsAll(p)), q)
  }

  /** The place search's test: the people test, or the city. */
  predicate PlaceMatches(fold: char -> char, p: Person, q: string) {
    Includes(Lower(fold, NameAll(p)), q) || Includes(Lower(fold, CityText(p)), q) || Includes(Lower(fold, FieldsAll(p)), q)
  }

  /**
   * The `filtered` memo: a blank query gives back the whole list; any other
   * gives, in order, exactly the records whose joined names or joined labels
   * contain it, each as often as in the input.
   */
  function FilterPeople(fold: char -> char, people: seq<Person>, query: string): (r: seq<Person>)
    ensures AllWhite(query) ==> r == people
    ensures IsSublist(r, people)
    ensures !AllWhite(query) ==> forall p :: p in r <==> p in people && PersonMatches(fold, p, NormalizeQuery(fold, query))
    ensures !AllWhite(query) ==> forall p :: multiset(r)[p] == if PersonMatches(fold, p, NormalizeQuery(fold, query)) then multiset(people)[p] else 0
  {
    var q := NormalizeQuery(fold, query);
    if q == [] then SublistRefl(people); people
    else Filter(people, p => PersonMatches(fold, p, q))
  }

  /** Searching the result of a search again with the same query changes nothing. */
  lemma FilterPeopleIdempotent(fold: char -> char, people: seq<Person>, query: string)
    ensures FilterPeople(fold, FilterPeople(fold, people, query), query) == FilterPeople(fold, people, query)
  {
    var q := NormalizeQuery(fold, query);
    if q != [] {
      FilterIdempotent(people, p => PersonMatches(fold, p, q));
    }
  }

  /** The `places` memo: exactly the records that carry both coordinates, in order. */
  function Places(people: seq<Person>): (r: seq<Person>)
    ensures IsSublist(r, people)
    ensures forall p :: p in r <==> p in people && p.lat.Some? && p.lng.Some?
    ensures forall p :: multiset(r)[p] == if p.lat.Some? && p.lng.Some? then multiset(people)[p] else 0
  {
    Filter(people, (p: Person) => p.lat.Some? && p.lng.Some?)
  }

  /**
   * The `placesFiltered` memo: a blank query gives `places` back; any other
   * keeps, in order, the records matching by name, city or labels.
   */
  function FilterPlaces(fold: char -> char, places: seq<Person>, query: string): (r: seq<Person>)
    ensures AllWhite(query) ==> r == places
    ensures IsSublist(r, places)
    ensures !AllWhite(query) ==> forall p :: p in r <==> p in places && PlaceMatches(fold, p, NormalizeQuery(fold, query))
    ensures !AllWhite(query) ==> forall p :: multiset(r)[p] == if PlaceMatches(fold, p, NormalizeQuery(fold, query)) then multiset(places)[p] else 0
  {
    var q := NormalizeQuery(fold, query);
    if q == [] then SublistRefl(places); places
    else Filter(places, p => PlaceMatches(fold, p, q))
  }

  /** What the map shows is a sub-list of the people handed to it, and carries coordinates. */
  lemma PlacesFilteredWithinPeople(fold: char -> char, people: seq<Person>, query: string)
    ensures IsSublist(FilterPlaces(fold, Places(people), query), people)
    ensures forall p :: p in FilterPlaces(fold, Places(people), query) ==> p.lat.Some? && p.lng.Some?
  {
    SublistTrans(FilterPlaces(fold, Places(people), query), Places(people), people);
  }

  /** A query that occurs verbatim in a record's names or labels finds that record, whatever the case map. */
  lemma VerbatimQueryFinds(fold: char -> char, people: seq<Person>, query: string, p: Person, i: int)
    requires p in people && Trim(query) != []
    requires OccursAt(NameAll(p), Trim(query), i) || OccursAt(FieldsAll(p), Trim(query), i)
    ensures p in FilterPeople(fold, people, query)
  {
    if OccursAt(NameAll(p), Trim(query), i) {
      OccursLower(fold, NameAll(p), Trim(query), i);
    } else {
      OccursLower(fold, FieldsAll(p), Trim(query), i);
    }
  }

  /** Searching for one of a record's labels, as written, finds that record. */
  lemma {:induction false} LabelQueryFinds(fold: char -> char, people: seq<Person>, p: Person, k: nat, tag: string)
    requires p in people
    requires k < |p.fields + p.fieldsEn.GetOr([])| && (p.fields + p.fieldsEn.GetOr([]))[k] == tag
    requires tag != [] && !IsWhite(tag[0]) && !IsWhite(tag[|tag| - 1])
    ensures p in FilterPeople(fold, people, tag)
  {
    var parts := p.fields + p.fieldsEn.GetOr([]);
    assert OccursAt(tag, tag, 0) by { assert tag[0..|tag|] == tag; }
    OccursInJoin(" ", parts, k, tag, 0);
    TrimUnchanged(tag);
    VerbatimQueryFinds(fold, people, tag, p, PartOffset(" ", parts, k));
  }

  /** Searching "Journalism" finds Gainizhamal Dosymbekova, so the result is not empty. */
  lemma JournalismSearchNonEmpty(fold: char -> char)
    ensures GainizhamalDosymbekova in FilterPeople(fold, PeopleData, "Journalism")
    ensures |FilterPeople(fold, PeopleData, "Journalism")| > 0
  {
    var p := GainizhamalDosymbekova;
    assert p == PeopleData[1];
    assert p.fieldsEn.GetOr([]) == ["Journalism", "Politics"];
    LabelQueryFinds(fold, PeopleData, p, 2, "Journalism");
  }

  /** Cutting `a + " " + b` around a stretch that crosses the space. */
  lemma Regroup(a: string, b: string, i: nat, j: nat)
    requires i <= |a| && j <= |b|
    ensures a + " " + b == a[..i] + (a[i..] + " " + b[..j]) + b[j..]
  {
    assert a == a[..i] + a[i..];
    assert b == b[..j] + b[j..];
  }

  /**
   * The names are joined with a space before matching, so a query made of the
   * end of the Kazakh name, a space and the start of the English name finds
   * the record, though it occurs in neither name alone.
   */
  lemma QuerySpansNames(fold: char -> char, people: seq<Person>, p: Person, i: nat, j: nat)
    requires p in people && p.name != "" && p.nameEn.Some? && p.nameEn.value != ""
    requires i < |p.name| && 0 < j <= |p.nameEn.value|
    requires !IsWhite(p.name[i]) && !IsWhite(p.nameEn.value[j - 1])
    ensures p in FilterPeople(fold, people, p.name[i..] + " " + p.nameEn.value[..j])
  {
    var en := p.nameEn.value;
    var q := p.name[i..] + " " + en[..j];
    NameAllBoth(p);
    Regroup(p.name, en, i, j);
    OccursInMiddle(p.name[..i], q, en[j..]);
    TrimUnchanged(q);
    VerbatimQueryFinds(fold, people, q, p, i);
  }
}
