/**
 * `MapWithPlaces`' map effects: rebuilding the markers from the filtered
 * places, fitting the viewport, and focusing a marker picked from the list.
 * Map, marker and info-window objects are tokens; a marker's token is its
 * position in the sequence of all markers ever created.
 */
module MapView {
  import opened Wrappers
  import opened People
  import opened Colors
  import MapsLoader
  import Lists
  import Search

  /** A created marker: the person it stands for and its fill colour. */
  datatype MarkerRec = MarkerRec(person: Person, color: string)

  /** The calls made on the map surface that move its viewport. */
  datatype MapCall = FitBounds(markers: seq<nat>) | SetCenter(marker: nat) | PanTo(marker: nat) | SetZoom(level: int)

  /** The tokens `base`, ..., `base + n - 1`. */
  function Tokens(base: nat, n: nat): (ts: set<nat>)
    ensures forall t :: t in ts <==> base <= t < base + n
  {
    if n == 0 then {} else Tokens(base, n - 1) + {base + n - 1}
  }

  /** The markers one rebuild creates, one per place, coloured by its Kazakh labels. */
  function NewMarkers(places: seq<Person>): (ms: seq<MarkerRec>)
    ensures |ms| == |places|
  {
    if places == [] then []
    else NewMarkers(places[..|places| - 1]) + [MarkerRec(places[|places| - 1], AssignMarkerColor(places[|places| - 1].fields))]
  }

  /** Every new marker stands for the place at its position and has that place's colour. */
  lemma {:induction false} NewMarkersAt(places: seq<Person>, i: nat)
    requires i < |places|
    ensures NewMarkers(places)[i] == MarkerRec(places[i], AssignMarkerColor(places[i].fields))
  {
    if i < |places| - 1 {
      NewMarkersAt(places[..|places| - 1], i);
    } else if |places| > 1 {
      NewMarkersAt(places[..|places| - 1], 0);
    }
  }

  /** The registry a rebuild leaves: each id to the token of the last marker created for it. */
  function RegistryFor(places: seq<Person>, base: nat): map<string, nat> {
    if places == [] then map[]
    else RegistryFor(places[..|places| - 1], base)[places[|places| - 1].id := base + |places| - 1]
  }

  /** The registry's keys are exactly the ids of the places. */
  lemma {:induction false} RegistryForKeys(places: seq<Person>, base: nat)
    ensures RegistryFor(places, base).Keys == set p | p in places :: p.id
  {
    if places != [] {
      var init := places[..|places| - 1];
      RegistryForKeys(init, base);
      assert places == init + [places[|places| - 1]];
    }
  }

  /** Each id leads to the token of the last place carrying it. */
  lemma {:induction false} RegistryForLast(places: seq<Person>, base: nat, id: string)
    requires id in RegistryFor(places, base)
    ensures var k := RegistryFor(places, base)[id] - base;
            && 0 <= k < |places| && places[k].id == id
            && forall j :: k < j < |places| ==> places[j].id != id
  {
    var init := places[..|places| - 1];
    if places[|places| - 1].id != id {
      RegistryForLast(init, base, id);
    }
  }

  /** With distinct ids every new marker stays registered. */
  lemma {:induction false} RegistryForUniqueValues(places: seq<Person>, base: nat)
    requires UniqueIds(places)
    ensures RegistryFor(places, base).Values == Tokens(base, |places|)
  {
    if places != [] {
      var init := places[..|places| - 1];
      var last := places[|places| - 1];
      var m := RegistryFor(init, base);
      RegistryForUniqueValues(init, base);
      RegistryForKeys(init, base);
      assert last.id !in m;
      var m' := m[last.id := base + |places| - 1];
      assert m'.Values == m.Values + {base + |places| - 1} by {
        forall v | v in m'.Values ensures v in m.Values + {base + |places| - 1} {
          var k :| k in m' && m'[k] == v;
          if k != last.id { assert m[k] == v; }
        }
        forall v | v in m.Values ensures v in m'.Values {
          var k :| k in m && m[k] == v;
          assert m'[k] == v;
        }
        assert m'[last.id] == base + |places| - 1;
      }
    }
  }

  /** After a rebuild each registered id leads to a new marker standing for a place with that id. */
  lemma RegistryPointsToPlaces(markers: seq<MarkerRec>, places: seq<Person>)
    ensures var ms := markers + NewMarkers(places);
            var reg := RegistryFor(places, |markers|);
            forall id :: id in reg ==> reg[id] < |ms| && ms[reg[id]].person.id == id
  {
    var ms := markers + NewMarkers(places);
    var reg := RegistryFor(places, |markers|);
    forall id | id in reg
      ensures reg[id] < |ms| && ms[reg[id]].person.id == id
    {
      RegistryForLast(places, |markers|, id);
      NewMarkersAt(places, reg[id] - |markers|);
    }
  }

  /** The ids of the places the map shows for any query are distinct when the people's ids are. */
  lemma ShownPlacesUnique(fold: char -> char, people: seq<Person>, query: string)
    requires UniqueIds(people)
    ensures UniqueIds(Search.FilterPlaces(fold, Search.Places(people), query))
  {
    var shown := Search.FilterPlaces(fold, Search.Places(people), query);
    Search.PlacesFilteredWithinPeople(fold, people, query);
    Lists.SublistKeepsDistinct(shown, people, PersonId);
  }

  /**
   * The page hands the map the shipped table, whose ids are distinct; so a
   * rebuild from the places shown for any query keeps every new marker registered.
   */
  lemma ShippedPlacesKeepAllMarkers(fold: char -> char, query: string, base: nat)
    ensures var shown := Search.FilterPlaces(fold, Search.Places(PeopleData), query);
            UniqueIds(shown) && RegistryFor(shown, base).Values == Tokens(base, |shown|)
  {
    ShippedIdsUnique();
    ShownPlacesUnique(fold, PeopleData, query);
    RegistryForUniqueValues(Search.FilterPlaces(fold, Search.Places(PeopleData), query), base);
  }

  /**
   * The viewport decision after a rebuild: fit the bounds of the markers
   * when there are several, centre on the one marker, or leave it alone.
   */
  function ViewportCalls(n: nat, base: nat): (cs: seq<MapCall>)
    ensures n == 0 <==> cs == []
    ensures n == 1 ==> cs == [SetCenter(base)]
    ensures n > 1 ==> |cs| == 1 && cs[0].FitBounds? && |cs[0].markers| == n
                      && forall i :: 0 <= i < n ==> cs[0].markers[i] == base + i
  {
    if n > 1 then [FitBounds(seq(n, i => base + i))]
    else if n == 1 then [SetCenter(base)]
    else []
  }

  /** `Object.values(markersRef.current).forEach(m => m.setMap(null))`: every registered marker is detached. */
  method DetachAll(attached: set<nat>, registered: set<nat>) returns (att: set<nat>)
    ensures att == attached - registered
  {
    att := attached;
    var rest := registered;
    while rest != {}
      invariant rest <= registered
      invariant att == attached - (registered - rest)
      decreases rest
    {
      var t :| t in rest;
      att := att - {t};
      rest := rest - {t};
    }
  }

  /**
   * The `placesFiltered.forEach` loop: one new attached marker per place, in
   * order, and the id-to-marker registry rebuilt from an empty one.
   */
  method CreateMarkers(markers: seq<MarkerRec>, attached: set<nat>, places: seq<Person>)
    returns (ms: seq<MarkerRec>, att: set<nat>, reg: map<string, nat>)
    ensures ms == markers + NewMarkers(places)
    ensures reg == RegistryFor(places, |markers|)
    ensures att == attached + Tokens(|markers|, |places|)
  {
    ms, att, reg := markers, attached, map[];
    var base := |markers|;
    var i := 0;
    while i < |places|
      invariant 0 <= i <= |places|
      invariant ms == markers + NewMarkers(places[..i])
      invariant reg == RegistryFor(places[..i], base)
      invariant att == attached + Tokens(base, i)
    {
      var p := places[i];
      assert places[..i + 1][..i] == places[..i];
      ms := ms + [MarkerRec(p, AssignMarkerColor(p.fields))];
      att := att + {base + i};
      reg := reg[p.id := base + i];
      i := i + 1;
    }
    assert places[..i] == places;
  }

  /** Tokens refer to created markers, and a registered marker stands for its id's person. */
  ghost predicate Consistent(mapCreated: bool, markers: seq<MarkerRec>, attached: set<nat>,
                             registry: map<string, nat>, info: Option<nat>)
  {
    && (forall id :: id in registry ==> registry[id] < |markers| && markers[registry[id]].person.id == id)
    && (forall t :: t in attached ==> t < |markers|)
    && (info.Some? ==> info.value < |markers|)
    && (registry != map[] ==> mapCreated)
  }

  /** A rebuild from a consistent surface leaves a consistent surface. */
  lemma RebuildConsistent(markers: seq<MarkerRec>, attached: set<nat>, registry: map<string, nat>,
                          info: Option<nat>, places: seq<Person>, mapCreated: bool)
    requires Consistent(mapCreated, markers, attached, registry, info)
    ensures Consistent(true, markers + NewMarkers(places),
                       (attached - registry.Values) + Tokens(|markers|, |places|),
                       RegistryFor(places, |markers|), info)
  {
    RegistryPointsToPlaces(markers, places);
    AttachedBelow(attached, registry.Values, |markers|, |places|);
  }

  /** Detaching and then attaching `n` new tokens keeps every attached token below the marker count. */
  lemma AttachedBelow(attached: set<nat>, registered: set<nat>, count: nat, n: nat)
    requires forall t :: t in attached ==> t < count
    ensures forall t :: t in (attached - registered) + Tokens(count, n) ==> t < count + n
  {
  }

  /** The map surface, its markers, the id-to-marker registry and the info window. */
  class MapState {
    var mapCreated: bool
    var markers: seq<MarkerRec>
    var attached: set<nat>
    var registry: map<string, nat>
    var info: Option<nat>
    var calls: seq<MapCall>
    var focusId: Option<string>

    /** The fields form a consistent map surface. */
    ghost predicate Valid()
      reads this
    {
      Consistent(mapCreated, markers, attached, registry, info)
    }

    constructor ()
      ensures Valid()
      ensures !mapCreated && markers == [] && attached == {} && registry == map[]
      ensures info == None && calls == [] && focusId == None
    {
      mapCreated, markers, attached, registry := false, [], {}, map[];
      info, calls, focusId := None, [], None;
    }

    /**
     * The marker effect. Unless the script is ready and the map container
     * exists, nothing happens. Otherwise the map is created on first use,
     * every registered marker is detached, the registry is rebuilt from
     * `placesFiltered` with one new attached marker per place, and the
     * viewport is fitted or centred by the number of places.
     */
    method Rebuild(status: MapsLoader.Status, hasContainer: bool, placesFiltered: seq<Person>)
      requires Valid()
      modifies this
      ensures Valid()
      ensures status != MapsLoader.Ready || !hasContainer ==>
                && mapCreated == old(mapCreated) && markers == old(markers) && attached == old(attached)
                && registry == old(registry) && calls == old(calls)
      ensures status == MapsLoader.Ready && hasContainer ==>
                && mapCreated
                && markers == old(markers) + NewMarkers(placesFiltered)
                && registry == RegistryFor(placesFiltered, |old(markers)|)
                && attached == (old(attached) - old(registry).Values) + Tokens(|old(markers)|, |placesFiltered|)
                && calls == old(calls) + ViewportCalls(|placesFiltered|, |old(markers)|)
      ensures status == MapsLoader.Ready && hasContainer && UniqueIds(placesFiltered) && old(attached) <= old(registry).Values ==>
                attached == registry.Values
      ensures info == old(info) && focusId == old(focusId)
    {
      if status != MapsLoader.Ready || !hasContainer {
        return;
      }
      if !mapCreated {
        mapCreated := true;
      }

      var oldAttached, oldRegistered := attached, registry.Values;
      var detached := DetachAll(attached, registry.Values);
      var base := |markers|;
      RebuildConsistent(markers, attached, registry, info, placesFiltered, mapCreated);
      if UniqueIds(placesFiltered) && oldAttached <= oldRegistered {
        RegistryForUniqueValues(placesFiltered, base);
      }
      markers, attached, registry := CreateMarkers(markers, detached, placesFiltered);
      calls := calls + ViewportCalls(|placesFiltered|, base);
    }

    /** A marker's click listener: the info window opens at that marker. */
    method Click(t: nat)
      requires Valid() && t < |markers|
      modifies this`info
      ensures Valid() && info == Some(t)
    {
      info := Some(t);
    }

    /** The person whose biography the open info window's button would open. */
    function InfoPerson(): (p: Option<Person>)
      reads this
      requires Valid()
      ensures p.Some? <==> info.Some?
      ensures p.Some? ==> p.value == markers[info.value].person
    {
      if info.Some? then Some(markers[info.value].person) else None
    }

    /**
     * Picking a place from the list. The focus effect runs only when the
     * focused id changes; with a non-empty id, the library present and a
     * registered marker for the id, it clicks that marker, pans to it and
     * zooms to 7. Otherwise nothing but the focused id changes.
     */
    method SetFocus(id: Option<string>, mapsPresent: bool)
      requires Valid()
      modifies this`focusId, this`info, this`calls
      ensures Valid() && focusId == id
      ensures var fires := id != old(focusId) && id.Some? && id.value != "" && mapsPresent && id.value in registry;
              && (fires ==> info == Some(registry[id.value]) && InfoPerson().value.id == id.value
                            && calls == old(calls) + [PanTo(registry[id.value]), SetZoom(7)])
              && (!fires ==> info == old(info) && calls == old(calls))
    {
      if id == focusId {
        return;
      }
      focusId := id;
      if id.None? || id.value == "" || !mapsPresent {
        return;
      }
      if id.value in registry {
        var t := registry[id.value];
        Click(t);
        if mapCreated {
          calls := calls + [PanTo(t), SetZoom(7)];
        }
      }
    }
  }
}
