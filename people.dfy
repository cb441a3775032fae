/** The person record, its language-resolved display values and the shipped table. */
module People {
  import opened Wrappers
  import opened Locale
  import Lists

  /**
   * A biographical record. Kazakh values are the defaults, the `...En` fields
   * optional English overrides; `lat`/`lng` are only ever tested for presence.
   */
  datatype Person = Person(
    id: string,
    name: string, nameEn: Option<string>,
    birthYear: int, deathYear: Option<int>,
    fields: seq<string>, fieldsEn: Option<seq<string>>,
    bio: string, bioEn: Option<string>,
    education: Option<string>, educationEn: Option<string>,
    city: Option<string>,
    lat: Option<real>, lng: Option<real>)

  /** `pick(p.name, p.name_en, lang) || p.name`: an empty pick falls back to the Kazakh name. */
  function DisplayName(p: Person, lang: Lang): (s: string)
    ensures lang == Kk ==> s == p.name
    ensures lang == En ==> s == if p.nameEn.Some? && p.nameEn.value != "" then p.nameEn.value else p.name
  {
    var v := Pick(Some(p.name), p.nameEn, lang);
    if v.value != "" then v.value else p.name
  }

  /** `pick(p.fields, p.fields_en, lang) || p.fields`: an array is never falsy, so no second fallback. */
  function DisplayFields(p: Person, lang: Lang): (s: seq<string>)
    ensures lang == Kk ==> s == p.fields
    ensures lang == En ==> s == p.fieldsEn.GetOr(p.fields)
  {
    Pick(Some(p.fields), p.fieldsEn, lang).value
  }

  /** `pick(p.bio, p.bio_en, lang) || p.bio`. */
  function DisplayBio(p: Person, lang: Lang): (s: string)
    ensures lang == Kk ==> s == p.bio
    ensures lang == En ==> s == if p.bioEn.Some? && p.bioEn.value != "" then p.bioEn.value else p.bio
  {
    var v := Pick(Some(p.bio), p.bioEn, lang);
    if v.value != "" then v.value else p.bio
  }

  /** The education block is shown only when the picked value is present and non-empty. */
  function DisplayEducation(p: Person, lang: Lang): (s: Option<string>)
    ensures s.Some? ==> s.value != ""
    ensures lang == Kk ==> s == if p.education.Some? && p.education.value != "" then p.education else None
    ensures lang == En && p.educationEn.Some? ==> s == if p.educationEn.value != "" then p.educationEn else None
    ensures lang == En && p.educationEn.None? ==> s == if p.education.Some? && p.education.value != "" then p.education else None
  {
    var v := Pick(p.education, p.educationEn, lang);
    if v.Some? && v.value != "" then v else None
  }

  /** A person whose data the map can place: both coordinates present and in range. */
  predicate ValidCoordinates(p: Person) {
    && (p.lat.Some? <==> p.lng.Some?)
    && (p.lat.Some? ==> -90.0 <= p.lat.value <= 90.0)
    && (p.lng.Some? ==> -180.0 <= p.lng.value <= 180.0)
  }

  /** The shipped records, one per person (photo URLs and the unused `works` count are not modelled). */
  const HusnizhamalNuralykhanova: Person := Person(
    id := "husnizhamal-nuralykhanova",
    name := "Хұснижамал Нұралыханова", nameEn := Some("Khusnizhamal Nuralykhanova"),
    birthYear := 1872, deathYear := Some(1945),
    fields := ["Білім", "Саясат"],
    fieldsEn := Some(["Education", "Politics"]),
    bio := "Тұңғыш мектеп ашқан қазақ қызы",
    bioEn := Some("The first Kazakh girl to open a school."),
    education := Some("Қазанның Земская мектебі, Орынбордың Нюплеев корпусы"),
    educationEn := Some("Kazan Zemstvo School, Orenburg Nyupleev Corps"),
    city := Some("Бөкей Ордасы (Батыс Қазақстан)"),
    lat := Some(47.12), lng := Some(51.85))

  const GainizhamalDosymbekova: Person := Person(
    id := "gainizhamal-dosymbekova",
    name := "Ғайнижамал Досымбекова", nameEn := Some("Gainizhamal Dosymbekova"),
    birthYear := 1895, deathYear := Some(1940),
    fields := ["Журналистика", "Саясат"],
    fieldsEn := Some(["Journalism", "Politics"]),
    bio := "қазақтың тұңғыш тілші қызы",
    bioEn := Some("The first female Kazakh reporter."),
    education := Some("Орынбор гимназиясы"),
    educationEn := Some("Orenburg Gymnasium"),
    city := Some("Қызылжар (Петропавл)"),
    lat := Some(54.873), lng := Some(69.162))

  const NazipaQulzhanova: Person := Person(
    id := "nazipa-qulzhanova",
    name := "Нәзипа Құлжанова", nameEn := Some("Nazipa Qulzhanova"),
    birthYear := 1887, deathYear := Some(1934),
    fields := ["Журналистика", "Саясат", "Білім"],
    fieldsEn := Some(["Journalism", "Politics", "Education"]),
    bio := "тұңғыш аудармашы және журналист қазақ қызы",
    bioEn := Some("Pioneer translator and journalist from Kazakhstan."),
    education := Some("Қостанайдағы орыс-қазақ гимназиясы, Торғайдағы қыздар училищесі"),
    educationEn := Some("Kostanay Russian-Kazakh Gymnasium; Torgai Girls' School"),
    city := Some("Торғай"),
    lat := Some(49.626), lng := Some(63.498))

  const AqqagazDoszhanova: Person := Person(
    id := "aqqagaz-doszhanova",
    name := "Аққағаз Досжанова", nameEn := Some("Aqqagaz Doszhanova"),
    birthYear := 1893, deathYear := Some(1932),
    fields := ["Медицина", "Саясат", "Білім"],
    fieldsEn := Some(["Medicine", "Politics", "Education"]),
    bio := "қазақтың дәрігер қызы",
    bioEn := Some("A trailblazing Kazakh female physician."),
    education := Some("Орынбордағы әйелдер гимназиясы, Мәскеудегі медицина курстары"),
    educationEn := Some("Orenburg Women's Gymnasium; Medical courses in Moscow"),
    city := Some("Бөрте болысы (Ақтөбе уезі)"),
    lat := Some(50.2839), lng := Some(57.1669))

  const GulsimAsfendiyarova: Person := Person(
    id := "gulsim-asfendiyarova",
    name := "Гүлсім Асфендиярова", nameEn := Some("Gulsim Asfendiyarova"),
    birthYear := 1880, deathYear := Some(1941),
    fields := ["Медицина", "Білім"],
    fieldsEn := Some(["Medicine", "Education"]),
    bio := "қазақтан шыққан тұңғыш дәрігер қыз",
    bioEn := Some("The first Kazakh female doctor."),
    education := Some("Ташкент қаласындағы әйелдер гимназиясы, Санкт-Петербург әйелдер медицина институты"),
    educationEn := Some("Tashkent Women's Gymnasium; St. Petersburg Women's Medical Institute"),
    city := Some("Шымкент"),
    lat := Some(42.341), lng := Some(69.590))

  const ShahzadaAronqyzy: Person := Person(
    id := "shahzada-aronqyzy",
    name := "Шахзада Аронқызы", nameEn := Some("Shakhzada Aronkizy"),
    birthYear := 1903, deathYear := Some(1938),
    fields := ["Саясат", "Білім"],
    fieldsEn := Some(["Politics", "Education"]),
    bio := "қазақтан шыққан тұңғыш заңгер қыз",
    bioEn := Some("The first female lawyer from Kazakhstan."),
    education := Some("Орта Азия мемлекеттік университетінің Ташкент медикалық факультеті, Алматы медикалық институты"),
    educationEn := Some("Central Asian State University (Tashkent Medical Faculty); Almaty Medical Institute"),
    city := Some("Жымпиты (Сырым ауданы, БҚО)"),
    lat := Some(50.249), lng := Some(53.936))

  const PatshayymTazhibayeva: Person := Person(
    id := "patshayym-tazhibayeva",
    name := "Патшайым Тәжібаева", nameEn := Some("Patshayym Tazhibayeva"),
    birthYear := 1920, deathYear := Some(1991),
    fields := ["Геология", "Минералогия", "Саясат"],
    fieldsEn := Some(["Geology", "Mineralogy", "Politics"]),
    bio := "қазақтан шыққан тұңғыш профессор қыз",
    bioEn := Some("The first female professor from Kazakhstan."),
    education := Some("Алматыдағы педагогикалық училище, Ташкенттегі Орта Азия мемлекеттік университетінің геология-минерология факультеті, Қазақтың Ғылым Академиясы, Куйбышев (Самара) университетінің физика-математика факультеті"),
    educationEn := Some("Almaty Pedagogical College; Central Asian State University (Geology-Mineralogy); Kazakhstan Academy of Sciences; Kuibyshev (Samara) University (Physics-Math)"),
    city := Some("Төлеби ауданы (Түркістан обл.)"),
    lat := Some(42.187), lng := Some(69.883))

  const NagimaAryqova: Person := Person(
    id := "nagima-aryqova",
    name := "Нағима Арықова", nameEn := Some("Nagima Aryqova"),
    birthYear := 1902, deathYear := Some(1956),
    fields := ["Білім", "Журналистика", "Саясат"],
    fieldsEn := Some(["Education", "Journalism", "Politics"]),
    bio := "қыздар мектебінің тұңғыш директоры",
    bioEn := Some("The first principal of a girls' school."),
    education := Some("Исхақия мектебі, қосымша мұғалімдер курсы, Семей губерниясының кеңестік партия мектебі"),
    educationEn := Some("Ishaqia School; Teacher's Extension Courses; Semey Provincial Party School"),
    city := Some("Верный (Алматы)"),
    lat := Some(43.238), lng := Some(76.945))

  const BalzhanBoltirikova: Person := Person(
    id := "balzhan-boltirikova",
    name := "Балжан Бөлтірікова", nameEn := Some("Balzhan Boltirikova"),
    birthYear := 1921, deathYear := Some(1998),
    fields := ["Білім", "Саясат"],
    fieldsEn := Some(["Education", "Politics"]),
    bio := "БҰҰ-да сөз сөйлеген тұңғыш қазақ қызы",
    bioEn := Some("First Kazakh woman to address the UN."),
    education := Some("Алматы мұғалімдер институты, Қазақ педагогикалық институты"),
    educationEn := Some("Almaty Teachers' Institute; Kazakh Pedagogical Institute"),
    city := Some("Қасық ауылы (Қордай ауд., Жамбыл обл.)"),
    lat := Some(43.1), lng := Some(75.3))

  const SaraYesova: Person := Person(
    id := "sara-yesova",
    name := "Сара Есова", nameEn := Some("Sara Yesova"),
    birthYear := 1903, deathYear := Some(1984),
    fields := ["Білім", "Саясат", "Журналистика"],
    fieldsEn := Some(["Education", "Politics", "Journalism"]),
    bio := "«Тілші» газетінің редакторы",
    bioEn := Some("Editor of the 'Tilshi' newspaper."),
    education := Some("Орынбордағы педагогикалық училище, Алматыдағы марксизм-ленинизм институтының тарих бөлімі"),
    educationEn := Some("Orenburg Pedagogical College; Institute of Marxism-Leninism (History), Almaty"),
    city := Some("Қарашеңгел ауылы (Сырдария ауд., Қызылорда обл.)"),
    lat := Some(45.05), lng := Some(64.98))

  /** The shipped table, in the order of the source. */
  const PeopleData: seq<Person> := [
    HusnizhamalNuralykhanova,
    GainizhamalDosymbekova,
    NazipaQulzhanova,
    AqqagazDoszhanova,
    GulsimAsfendiyarova,
    ShahzadaAronqyzy,
    PatshayymTazhibayeva,
    NagimaAryqova,
    BalzhanBoltirikova,
    SaraYesova
  ]

  /** Every shipped record carries both coordinates, and they lie in range. */
  lemma ShippedCoordinatesValid()
    ensures forall i :: 0 <= i < |PeopleData| ==> ValidCoordinates(PeopleData[i]) && PeopleData[i].lat.Some?
  {
  }

  /** The key a person is known by: their id. */
  function PersonId(p: Person): string {
    p.id
  }

  /** No two records share an id. */
  predicate UniqueIds(people: seq<Person>) {
    Lists.DistinctBy(people, PersonId)
  }

  /** Ids are unique in the shipped table. */
  lemma ShippedIdsUnique()
    ensures UniqueIds(PeopleData)
  {
  }

  /** The development-time journalism test: tagged in Kazakh or in English. */
  predicate TaggedJournalism(p: Person) {
    "Журналистика" in p.fields || "Journalism" in p.fieldsEn.GetOr([])
  }

  /** The development-time check: filtering the shipped table by the journalism tag finds someone. */
  lemma JournalismTagged()
    ensures |Lists.Filter(PeopleData, TaggedJournalism)| > 0
  {
    assert GainizhamalDosymbekova.fields[0] == "Журналистика";
    assert TaggedJournalism(GainizhamalDosymbekova);
    assert GainizhamalDosymbekova in Lists.Filter(PeopleData, TaggedJournalism);
  }
}
