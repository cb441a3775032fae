/**
 * The page's own state: the language, the dashboard query, the open
 * biography and the quote index, each changed through its setter.
 */
module Page {
  import opened Wrappers
  import opened Locale
  import opened People
  import opened Quotes
  import Lists
  import Search

  class AppState {
    var lang: Lang
    var query: string
    var activePerson: Option<Person>
    var quoteIndex: nat

    /** The quote index is valid for the list of the current language. */
    ghost predicate Valid()
      reads this
    {
      quoteIndex < |QuotesFor(lang)|
    }

    /** The initial state: Kazakh, empty query, nothing open, first quote. */
    constructor ()
      ensures Valid()
      ensures lang == Kk && query == "" && activePerson == None && quoteIndex == 0
    {
      lang, query, activePerson, quoteIndex := Kk, "", None, 0;
    }

    /**
     * The language buttons. The open biography, the query and the quote
     * index are kept, and the index stays valid because both quote lists
     * have the same length.
     */
    method SetLang(l: Lang)
      requires Valid()
      modifies this
      ensures Valid()
      ensures lang == l && query == old(query) && activePerson == old(activePerson) && quoteIndex == old(quoteIndex)
    {
      QuoteIndexValidInBothLanguages(quoteIndex, lang, l);
      lang := l;
    }

    /** The dashboard search box. */
    method SetQuery(s: string)
      modifies this
      ensures query == s && lang == old(lang) && activePerson == old(activePerson) && quoteIndex == old(quoteIndex)
    {
      query := s;
    }

    /**
     * `setActivePerson(p)`: what a dashboard card, a place's "Open" button and
     * an info window's biography button all do with their person.
     */
    method OpenPerson(p: Person)
      modifies this
      ensures activePerson == Some(p)
      ensures lang == old(lang) && query == old(query) && quoteIndex == old(quoteIndex)
    {
      activePerson := Some(p);
    }

    /** Dismissing the biography dialog. */
    method CloseDetail()
      modifies this
      ensures activePerson == None
      ensures lang == old(lang) && query == old(query) && quoteIndex == old(quoteIndex)
    {
      activePerson := None;
    }

    /** One step of the quote rotation, shared by the timer and the button. */
    method Advance()
      requires Valid()
      modifies this`quoteIndex
      ensures Valid()
      ensures quoteIndex == NextIndex(old(quoteIndex), |QuotesFor(lang)|)
    {
      quoteIndex := (quoteIndex + 1) % |QuotesFor(lang)|;
    }

    /** The twenty-second timer's tick. */
    method TickQuote()
      requires Valid()
      modifies this`quoteIndex
      ensures Valid()
      ensures quoteIndex == NextIndex(old(quoteIndex), |QuotesFor(lang)|)
    {
      Advance();
    }

    /** The "new quote" button: the same step as the timer. */
    method NextQuote()
      requires Valid()
      modifies this`quoteIndex
      ensures Valid()
      ensures quoteIndex == NextIndex(old(quoteIndex), |QuotesFor(lang)|)
    {
      Advance();
    }

    /** `quotes[quoteIndex]`: always a quote of the current language. */
    function CurrentQuote(): (q: QuoteItem)
      reads this
      requires Valid()
      ensures q in QuotesFor(lang)
    {
      QuotesFor(lang)[quoteIndex]
    }

    /** The navigation buttons are disabled while a biography is open. */
    function IsDimmed(): (dimmed: bool)
      reads this
      ensures dimmed <==> activePerson != None
    {
      activePerson.Some?
    }

    /** The cards the dashboard shows for the current query: a sub-list of the shipped table. */
    function Filtered(fold: char -> char): (r: seq<Person>)
      reads this
      ensures Lists.IsSublist(r, PeopleData)
    {
      Search.FilterPeople(fold, PeopleData, query)
    }
  }
}
