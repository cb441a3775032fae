/** The two quote lists and the cyclic step that rotates through them. */
module Quotes {
  import opened Locale

  datatype QuoteItem = QuoteItem(text: string, author: string)

  const QuotesEn: seq<QuoteItem> := [
    QuoteItem("I am not afraid... I was born to do this.", "Joan of Arc"),
    QuoteItem("Nothing is impossible. The word itself says 'I'm possible!'", "Audrey Hepburn"),
    QuoteItem("We realize the importance of our voices only when we are silenced.", "Malala Yousafzai"),
    QuoteItem("The most effective way to do it, is to do it.", "Amelia Earhart"),
    QuoteItem("Life shrinks or expands in proportion to one's courage.", "Anaïs Nin")
  ]

  const QuotesKk: seq<QuoteItem> := [
    QuoteItem("Еңбек қылмай ер оңбас.", "Абай Құнанбайұлы"),
    QuoteItem("Білім — болашақтың кілті.", "Мақал"),
    QuoteItem("Өзгеріс өзіңнен басталады.", "Нақыл сөз"),
    QuoteItem("Үлкен арман — үлкен еңбек.", "Нақыл сөз"),
    QuoteItem("Білімдіге дүние жарық.", "Мақал")
  ]

  /** `QUOTES_BY_LANG[lang]`: both lists hold five quotes. */
  function QuotesFor(lang: Lang): (qs: seq<QuoteItem>)
    ensures |qs| == 5
    ensures lang == En ==> qs == QuotesEn
    ensures lang == Kk ==> qs == QuotesKk
  {
    if lang == En then QuotesEn else QuotesKk
  }

  /**
   * `(prev + 1) % quotes.length`, the step both the timer and the "next"
   * button take: a valid index moves to the following one, and from the last
   * one back to the first.
   */
  function NextIndex(i: nat, len: nat): (j: nat)
    requires len > 0
    ensures j < len
    ensures i < len - 1 ==> j == i + 1
    ensures i == len - 1 ==> j == 0
  {
    (i + 1) % len
  }

  /** The index after `n` steps from the first quote. */
  function Rotated(n: nat, len: nat): (i: nat)
    requires len > 0
  {
    if n == 0 then 0 else NextIndex(Rotated(n - 1, len), len)
  }

  /** After `n` steps from the first quote the index is `n % len`. */
  lemma {:induction false} RotatedIsMod(n: nat, len: nat)
    requires len > 0
    ensures Rotated(n, len) == n % len
  {
    if n > 0 {
      RotatedIsMod(n - 1, len);
      ModStep(n - 1, len);
    }
  }

  lemma {:induction false} MulAtLeast(c: nat, len: nat)
    requires c >= 1
    ensures c * len >= len
  {
    if c > 1 {
      MulAtLeast(c - 1, len);
      assert c * len == (c - 1) * len + len;
    }
  }

  /** Quotient and remainder are unique. */
  lemma ModUnique(x: int, len: nat, a: int, r: int)
    requires len > 0 && 0 <= r < len && x == a * len + r
    ensures x % len == r && x / len == a
  {
    var b, s := x / len, x % len;
    assert x == b * len + s;
    if a > b {
      assert (a - b) * len == a * len - b * len;
      MulAtLeast(a - b, len);
      assert false;
    } else if b > a {
      assert (b - a) * len == b * len - a * len;
      MulAtLeast(b - a, len);
      assert false;
    }
  }

  /** One more step: the remainder of `m + 1` follows from the remainder of `m`. */
  lemma ModStep(m: nat, len: nat)
    requires len > 0
    ensures (m + 1) % len == (m % len + 1) % len
  {
    var k, r := m / len, m % len;
    assert m == k * len + r;
    if r + 1 < len {
      ModUnique(m + 1, len, k, r + 1);
      ModUnique(r + 1, len, 0, r + 1);
    } else {
      assert m + 1 == (k + 1) * len + 0;
      ModUnique(m + 1, len, k + 1, 0);
      ModUnique(r + 1, len, 1, 0);
    }
  }

  /** Any index valid for one language's list is valid for the other's. */
  lemma QuoteIndexValidInBothLanguages(i: nat, lang: Lang, other: Lang)
    requires i < |QuotesFor(lang)|
    ensures i < |QuotesFor(other)|
  {
  }
}
