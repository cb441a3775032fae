/** `assignMarkerColor`: a marker colour from a person's category labels. */
module Colors {
  import opened Wrappers

  /** The categories that have a colour of their own, in priority order below. */
  datatype Category = Medicine | Education | Politics | Journalism | Geology

  const Priority: seq<Category> := [Medicine, Education, Politics, Journalism, Geology]

  /** The Kazakh label of a category. */
  function KkLabel(c: Category): string {
    match c
    case Medicine => "Медицина"
    case Education => "Білім"
    case Politics => "Саясат"
    case Journalism => "Журналистика"
    case Geology => "Геология"
  }

  /** The English label of a category. */
  function EnLabel(c: Category): string {
    match c
    case Medicine => "Medicine"
    case Education => "Education"
    case Politics => "Politics"
    case Journalism => "Journalism"
    case Geology => "Geology"
  }

  /** The colour of a category. */
  function ColorOf(c: Category): string {
    match c
    case Medicine => "#dc2626"
    case Education => "#16a34a"
    case Politics => "#2563eb"
    case Journalism => "#d97706"
    case Geology => "#7c3aed"
  }

  /** The colour of a person matching none of the categories. */
  const Gray := "#4b5563"

  const Palette: set<string> := {"#dc2626", "#16a34a", "#2563eb", "#d97706", "#7c3aed", Gray}

  /** A label of `c`, in either language, is among `fields`. */
  predicate Tagged(fields: seq<string>, c: Category) {
    KkLabel(c) in fields || EnLabel(c) in fields
  }

  /** The first category of `cats` that `fields` is tagged with. */
  function FirstTagged(fields: seq<string>, cats: seq<Category>): (r: Option<Category>)
    ensures r.Some? ==> r.value in cats && Tagged(fields, r.value)
    ensures r.None? <==> forall c :: c in cats ==> !Tagged(fields, c)
    ensures r.Some? ==> exists k :: 0 <= k < |cats| && cats[k] == r.value && forall j :: 0 <= j < k ==> !Tagged(fields, cats[j])
  {
    if cats == [] then None
    else if Tagged(fields, cats[0]) then Some(cats[0])
    else
      var r := FirstTagged(fields, cats[1..]);
      FirstTaggedShift(fields, cats, r);
      r
  }

  /** A first hit in the tail, after an untagged head, is a first hit in the whole list. */
  lemma FirstTaggedShift(fields: seq<string>, cats: seq<Category>, r: Option<Category>)
    requires cats != [] && !Tagged(fields, cats[0])
    requires r.Some? ==> exists k :: 0 <= k < |cats[1..]| && cats[1..][k] == r.value && forall j :: 0 <= j < k ==> !Tagged(fields, cats[1..][j])
    ensures r.Some? ==> exists k :: 0 <= k < |cats| && cats[k] == r.value && forall j :: 0 <= j < k ==> !Tagged(fields, cats[j])
  {
    if r.Some? {
      var k :| 0 <= k < |cats[1..]| && cats[1..][k] == r.value && forall j :: 0 <= j < k ==> !Tagged(fields, cats[1..][j]);
      assert cats[k + 1] == r.value;
      assert forall j :: 0 <= j < k + 1 ==> !Tagged(fields, cats[j]) by {
        forall j | 0 <= j < k + 1 ensures !Tagged(fields, cats[j]) {
          if j > 0 { assert cats[j] == cats[1..][j - 1]; }
        }
      }
    }
  }

  /**
   * `assignMarkerColor(fields)`: total, always one of six colours, and gray
   * exactly when no category label (in either language) is present.
   */
  function AssignMarkerColor(fields: seq<string>): (color: string)
    ensures color in Palette
    ensures color == Gray <==> forall c :: !Tagged(fields, c)
  {
    if "Медицина" in fields || "Medicine" in fields then assert Tagged(fields, Medicine); "#dc2626"
    else if "Білім" in fields || "Education" in fields then assert Tagged(fields, Education); "#16a34a"
    else if "Саясат" in fields || "Politics" in fields then assert Tagged(fields, Politics); "#2563eb"
    else if "Журналистика" in fields || "Journalism" in fields then assert Tagged(fields, Journalism); "#d97706"
    else if "Геология" in fields || "Geology" in fields then assert Tagged(fields, Geology); "#7c3aed"
    else
      assert forall c :: !Tagged(fields, c);
      Gray
  }

  /** The colour is that of the first category, in priority order, whose label is present. */
  lemma AssignMarkerColorByPriority(fields: seq<string>)
    ensures AssignMarkerColor(fields) == match FirstTagged(fields, Priority)
                                         case Some(c) => ColorOf(c)
                                         case None => Gray
  {
    var p := Priority;
    assert p[1..] == [Education, Politics, Journalism, Geology];
    assert p[2..] == [Politics, Journalism, Geology];
    assert p[3..] == [Journalism, Geology];
    assert p[4..] == [Geology];
    assert p[5..] == [];
    if Tagged(fields, Medicine) {
      assert FirstTagged(fields, p) == Some(Medicine);
    } else if Tagged(fields, Education) {
      assert FirstTagged(fields, p) == FirstTagged(fields, p[1..]) == Some(Education);
    } else if Tagged(fields, Politics) {
      assert FirstTagged(fields, p[1..]) == FirstTagged(fields, p[2..]) == Some(Politics);
    } else if Tagged(fields, Journalism) {
      assert FirstTagged(fields, p[2..]) == FirstTagged(fields, p[3..]) == Some(Journalism);
    } else if Tagged(fields, Geology) {
      assert FirstTagged(fields, p[3..]) == FirstTagged(fields, p[4..]) == Some(Geology);
    } else {
      assert FirstTagged(fields, p[4..]) == FirstTagged(fields, p[5..]) == None;
    }
  }

  /** Colours of distinct categories differ, and none is gray. */
  lemma ColorsDistinct(c: Category, d: Category)
    ensures ColorOf(c) == ColorOf(d) <==> c == d
    ensures ColorOf(c) != Gray
  {
  }

  /** Appending a label tags the list with exactly the categories it names, besides those already tagged. */
  lemma TaggedAppend(fields: seq<string>, tag: string, d: Category)
    ensures Tagged(fields + [tag], d) == (Tagged(fields, d) || IsLabel(tag, d))
  {
  }

  /** A category's label in one language or the other, added to any list, gives the same colour. */
  lemma {:induction false} LabelLanguageIrrelevant(fields: seq<string>, c: Category)
    ensures AssignMarkerColor(fields + [KkLabel(c)]) == AssignMarkerColor(fields + [EnLabel(c)])
  {
    var kk, en := fields + [KkLabel(c)], fields + [EnLabel(c)];
    forall d ensures Tagged(kk, d) == Tagged(en, d) {
      TaggedAppend(fields, KkLabel(c), d);
      TaggedAppend(fields, EnLabel(c), d);
      LabelsDistinct(c, d);
    }
    AssignMarkerColorByPriority(kk);
    AssignMarkerColorByPriority(en);
    SameTagsSameFirst(kk, en, Priority);
  }

  /** The English label of the first category of `cats` whose Kazakh label is `tag`; `tag` itself when there is none. */
  function TranslateIn(tag: string, cats: seq<Category>): (r: string)
    ensures r == tag || exists c :: tag == KkLabel(c) && r == EnLabel(c)
  {
    if cats == [] then tag
    else if tag == KkLabel(cats[0]) then EnLabel(cats[0])
    else TranslateIn(tag, cats[1..])
  }

  /** The English counterpart of a Kazakh category label; any other label unchanged. */
  function Translate(tag: string): string {
    TranslateIn(tag, Priority)
  }

  /** Every Kazakh category label replaced by its English counterpart. */
  function TranslateAll(fields: seq<string>): (r: seq<string>)
    ensures |r| == |fields| && forall i :: 0 <= i < |fields| ==> r[i] == Translate(fields[i])
  {
    if fields == [] then [] else [Translate(fields[0])] + TranslateAll(fields[1..])
  }

  /** A list is tagged with `d` exactly when one of its entries is a label of `d`. */
  lemma TaggedAt(fields: seq<string>, d: Category)
    ensures Tagged(fields, d) <==> exists i :: 0 <= i < |fields| && IsLabel(fields[i], d)
  {
  }

  /** Translating the labels to English keeps the categories the list is tagged with. */
  lemma TranslatedSameTags(fields: seq<string>, d: Category)
    ensures Tagged(TranslateAll(fields), d) == Tagged(fields, d)
  {
    var t := TranslateAll(fields);
    forall i | 0 <= i < |fields| ensures IsLabel(t[i], d) == IsLabel(fields[i], d) {
      TranslateKeepsLabel(fields[i], d);
    }
    TaggedAt(t, d);
    TaggedAt(fields, d);
  }

  /** Translating the labels to English does not change the marker colour. */
  lemma TranslatedSameColor(fields: seq<string>)
    ensures AssignMarkerColor(TranslateAll(fields)) == AssignMarkerColor(fields)
  {
    var t := TranslateAll(fields);
    forall d ensures Tagged(t, d) == Tagged(fields, d) {
      TranslatedSameTags(fields, d);
    }
    AssignMarkerColorByPriority(t);
    AssignMarkerColorByPriority(fields);
    SameTagsSameFirst(t, fields, Priority);
  }

  predicate IsLabel(tag: string, c: Category) {
    tag == KkLabel(c) || tag == EnLabel(c)
  }

  /** Translating one label keeps it a label of the same categories. */
  lemma TranslateKeepsLabel(tag: string, c: Category)
    ensures IsLabel(Translate(tag), c) == IsLabel(tag, c)
  {
    var r := Translate(tag);
    if r != tag {
      var x :| tag == KkLabel(x) && r == EnLabel(x);
      LabelsDistinct(x, c);
    }
  }

  /** No label is shared: a Kazakh label names one category and is no English label. */
  lemma LabelsDistinct(x: Category, c: Category)
    ensures KkLabel(x) == KkLabel(c) <==> x == c
    ensures EnLabel(x) == EnLabel(c) <==> x == c
    ensures KkLabel(x) != EnLabel(c)
  {
  }

  /** Two label lists tagged with the same categories have the same first tagged category. */
  lemma {:induction false} SameTagsSameFirst(a: seq<string>, b: seq<string>, cats: seq<Category>)
    requires forall d :: Tagged(a, d) == Tagged(b, d)
    ensures FirstTagged(a, cats) == FirstTagged(b, cats)
  {
    if cats != [] { SameTagsSameFirst(a, b, cats[1..]); }
  }
}
