/** The two interface languages, the override-with-fallback rule and the lifespan label. */
module Locale {
  import opened Wrappers
  import opened Text

  /** `kk` is the default language; `en` values are optional overrides. */
  datatype Lang = Kk | En

  /**
   * `pick(kk, en, lang)`: in English the English override when there is one,
   * otherwise the Kazakh value; in Kazakh always the Kazakh value, even when
   * it is absent and an English one exists.
   */
  function Pick<T>(kk: Option<T>, en: Option<T>, lang: Lang): (r: Option<T>)
    ensures r == kk || r == en
    ensures lang == Kk ==> r == kk
    ensures lang == En && en.Some? ==> r == en
    ensures lang == En && en.None? ==> r == kk
    ensures r.Some? <==> kk.Some? || (lang == En && en.Some?)
  {
    if lang == En then (if en.Some? then en else kk) else kk
  }

  /** The unit word `lifespan` appends. */
  function YearsWord(lang: Lang): (w: string)
    ensures w != [] && ' ' !in w && '-' !in w
    ensures lang == En ==> w == "years"
    ensures lang == Kk ==> w == "жыл"
  {
    if lang == En then "years" else "жыл"
  }

  /**
   * `lifespan(birthYear, deathYear, lang)`: the number of years from the birth
   * year to the death year, or to `currentYear` for a living person, then a
   * space and the unit word of the language.
   */
  function Lifespan(birthYear: int, deathYear: Option<int>, lang: Lang, currentYear: int): string
  {
    IntToString(deathYear.GetOr(currentYear) - birthYear) + " " + YearsWord(lang)
  }

  /**
   * The label splits, at its last space, into a number that reads back as the
   * span of years and the unit word of the language.
   */
  lemma LifespanReadsBack(birthYear: int, deathYear: Option<int>, lang: Lang, currentYear: int)
    ensures var s := Lifespan(birthYear, deathYear, lang, currentYear);
            var n := |s| - |YearsWord(lang)| - 1;
            && 1 <= n < |s| && s[n] == ' ' && s[n + 1..] == YearsWord(lang)
            && ((s[0] == '-' && IsDigits(s[1..n])) || IsDigits(s[..n]))
            && ' ' !in s[..n]
            && ParseInt(s[..n]) == (if deathYear.Some? then deathYear.value else currentYear) - birthYear
  {
    var years := deathYear.GetOr(currentYear) - birthYear;
    var d, w := IntToString(years), YearsWord(lang);
    var s := Lifespan(birthYear, deathYear, lang, currentYear);
    assert s == d + " " + w;
    IntToStringRoundTrip(years);
    IntToStringNoSpace(years);
    SplitAtSpace(d, w);
    assert |s| - |w| - 1 == |d|;
  }

  /** The pieces of `d + " " + w` are found where they were put. */
  lemma SplitAtSpace(d: string, w: string)
    ensures var s := d + " " + w;
            && s[..|d|] == d && s[|d|] == ' ' && s[|d| + 1..] == w
            && (d != [] ==> s[1..|d|] == d[1..])
  {
  }

  /** The development-time check for a person with a death year. */
  lemma LifespanWithDeathYear(currentYear: int)
    ensures Lifespan(2000, Some(2020), Kk, currentYear) == "20 жыл"
  {
    assert NatToString(20) == NatToString(2) + ['0'];
  }

  /** The development-time check for a person born five years ago and still living. */
  lemma LifespanLiving(currentYear: int)
    ensures Lifespan(currentYear - 5, None, Kk, currentYear) == "5 жыл"
  {
  }
}
