/** The FAQ page: the list of questions rendered from the server's FAQs, and
    the accordion in which clicking a question shows its answer and hides all
    others. */
module FaqPage {

  datatype Faq = Faq(question: string, answer: string)

  /** One rendered FAQ item; `open` is true when its answer's display is
      `block`. A freshly created answer has no display set, so it is closed. */
  datatype FaqItem = FaqItem(question: string, answer: string, open: bool)

  /** One closed item per FAQ, in input order. */
  function Rendered(faqs: seq<Faq>): (r: seq<FaqItem>)
    ensures |r| == |faqs| && AllClosed(r)
    ensures forall i :: 0 <= i < |r| ==> r[i].question == faqs[i].question && r[i].answer == faqs[i].answer
  {
    seq(|faqs|, i requires 0 <= i < |faqs| => FaqItem(faqs[i].question, faqs[i].answer, false))
  }

  predicate AtMostOneOpen(items: seq<FaqItem>) {
    forall i, j :: 0 <= i < |items| && 0 <= j < |items| && items[i].open && items[j].open ==> i == j
  }

  predicate AllClosed(items: seq<FaqItem>) {
    forall i :: 0 <= i < |items| ==> !items[i].open
  }

  /** The items after a click on question `k`: every answer hidden, then the
      clicked one shown if it was hidden before the click. */
  function AfterClick(items: seq<FaqItem>, k: nat): (r: seq<FaqItem>)
    requires k < |items|
    ensures |r| == |items|
    ensures forall i :: 0 <= i < |r| ==> r[i].question == items[i].question && r[i].answer == items[i].answer
    ensures r[k].open <==> !items[k].open
    ensures forall i :: 0 <= i < |r| && i != k ==> !r[i].open
  {
    seq(|items|, i requires 0 <= i < |items| => items[i].(open := i == k && !items[k].open))
  }

  /** Whatever the state before, a click leaves at most one answer open. */
  lemma ClickLeavesAtMostOneOpen(items: seq<FaqItem>, k: nat)
    requires k < |items|
    ensures AtMostOneOpen(AfterClick(items, k))
  {
  }

  /** Clicking the question of a hidden answer leaves exactly that answer open:
      the named form of `AfterClick`'s clauses for a closed answer. */
  lemma ClickOnClosedOpensIt(items: seq<FaqItem>, k: nat)
    requires k < |items| && !items[k].open
    ensures var r := AfterClick(items, k);
      r[k].open && forall i :: 0 <= i < |r| && i != k ==> !r[i].open
  {
  }

  /** Clicking the question of a visible answer closes every answer. */
  lemma ClickOnOpenClosesAll(items: seq<FaqItem>, k: nat)
    requires k < |items| && items[k].open
    ensures AllClosed(AfterClick(items, k))
  {
  }

  /** Clicking the same question twice closes everything exactly when its answer
      was closed to begin with; from the all-closed state it is a round trip. */
  lemma ClickTwice(items: seq<FaqItem>, k: nat)
    requires k < |items|
    ensures AllClosed(AfterClick(AfterClick(items, k), k)) <==> !items[k].open
    ensures AllClosed(items) ==> AfterClick(AfterClick(items, k), k) == items
  {
  }

  class Accordion {
    var items: seq<FaqItem>

    constructor ()
      ensures items == []
    {
      items := [];
    }

    /** `displayFaqs`: appends one closed item per FAQ, in order. */
    method DisplayFaqs(faqs: seq<Faq>)
      modifies this
      ensures items == old(items) + Rendered(faqs)
      ensures AtMostOneOpen(old(items)) ==> AtMostOneOpen(items)
    {
      var i := 0;
      while i < |faqs|
        invariant 0 <= i <= |faqs|
        invariant items == old(items) + Rendered(faqs)[..i]
      {
        assert Rendered(faqs)[..i + 1] == Rendered(faqs)[..i] + [FaqItem(faqs[i].question, faqs[i].answer, false)];
        items := items + [FaqItem(faqs[i].question, faqs[i].answer, false)];
        i := i + 1;
      }
      assert Rendered(faqs)[..i] == Rendered(faqs);
    }

    /** The click handler on question `k`: hides every answer, then shows
        answer `k` if it was hidden before. */
    method Click(k: nat)
      requires k < |items|
      modifies this
      ensures items == AfterClick(old(items), k)
      ensures AtMostOneOpen(items)
    {
      var isVisible := items[k].open;
      var i := 0;
      while i < |items|
        invariant 0 <= i <= |items| == |old(items)|
        invariant forall m :: 0 <= m < i ==> items[m] == old(items)[m].(open := false)
        invariant forall m :: i <= m < |items| ==> items[m] == old(items)[m]
      {
        items := items[i := items[i].(open := false)];
        i := i + 1;
      }
      if !isVisible {
        items := items[k := items[k].(open := true)];
      }
      ClickLeavesAtMostOneOpen(old(items), k);
    }
  }
}
