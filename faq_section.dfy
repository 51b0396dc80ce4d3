/** The FAQ accordion under a blog post: which entries it renders and the
    open/closed state its buttons toggle. An entry is the one the
    structured data reads, so both agree on which entries are complete. */
module FaqSection {
  import opened Js
  import opened Seqs
  import opened StructuredData

  /** One rendered entry: its position in the list, its question text and
      whether its answer is shown. */
  datatype Card = Card(index: nat, question: string, answer: AnswerField, isOpen: bool)

  /** `c` is the card rendered for the complete entry `f`: it carries the
      entry's question and answer, and is open exactly when its position is
      the open index. */
  predicate CardOf(c: Card, f: Faq, openIndex: Option<int>) {
    && Complete(f)
    && c.question == f.question.value
    && c.answer == f.answer
    && (c.isOpen <==> openIndex == Some(c.index))
  }

  /** The cards for `faqs`, the first of which sits at position `offset`
      of the whole list: `faqs.map` returns `null` for an entry without a
      question or an answer. Each card has the position of one entry. */
  function Cards(faqs: seq<Faq>, openIndex: Option<int>, offset: nat): (r: seq<Card>)
    ensures |r| <= |faqs|
    ensures forall j :: 0 <= j < |r| ==> offset <= r[j].index < offset + |faqs|
    decreases |faqs|
  {
    if faqs == [] then []
    else
      var rest := Cards(faqs[1..], openIndex, offset + 1);
      if Complete(faqs[0]) then
        [Card(offset, faqs[0].question.value, faqs[0].answer, openIndex == Some(offset))] + rest
      else rest
  }

  /** Each card is the card of the entry at its position. */
  lemma {:induction false} CardsFields(faqs: seq<Faq>, openIndex: Option<int>, offset: nat)
    ensures forall j :: 0 <= j < |Cards(faqs, openIndex, offset)| ==>
      CardOf(Cards(faqs, openIndex, offset)[j], faqs[Cards(faqs, openIndex, offset)[j].index - offset], openIndex)
    decreases |faqs|
  {
    if faqs != [] {
      CardsFields(faqs[1..], openIndex, offset + 1);
      var rest := Cards(faqs[1..], openIndex, offset + 1);
      var r := Cards(faqs, openIndex, offset);
      forall j | 0 <= j < |r|
        ensures CardOf(r[j], faqs[r[j].index - offset], openIndex)
      {
        var k := if Complete(faqs[0]) then j - 1 else j;
        if k >= 0 {
          assert r[j] == rest[k];
          assert faqs[1..][rest[k].index - (offset + 1)] == faqs[r[j].index - offset];
        }
      }
    }
  }

  /** The cards follow the order of their entries. */
  lemma {:induction false} CardsOrdered(faqs: seq<Faq>, openIndex: Option<int>, offset: nat)
    ensures forall j, k :: 0 <= j < k < |Cards(faqs, openIndex, offset)| ==>
      Cards(faqs, openIndex, offset)[j].index < Cards(faqs, openIndex, offset)[k].index
    decreases |faqs|
  {
    if faqs != [] {
      CardsOrdered(faqs[1..], openIndex, offset + 1);
    }
  }

  /** `FAQSection({ faqs })`: nothing for missing or empty `faqs`. */
  function FaqCards(faqs: Option<seq<Faq>>, openIndex: Option<int>): (r: Option<seq<Card>>)
    ensures r.None? <==> faqs.None? || faqs.value == []
  {
    if faqs.None? || faqs.value == [] then None else Some(Cards(faqs.value, openIndex, 0))
  }

  /** The card of a complete first entry comes first. */
  lemma FirstCard(faqs: seq<Faq>, openIndex: Option<int>, offset: nat)
    requires faqs != [] && Complete(faqs[0])
    ensures |Cards(faqs, openIndex, offset)| > 0 && Cards(faqs, openIndex, offset)[0].index == offset
  {
  }

  /** The cards of the later entries follow that of the first one, if any. */
  lemma LaterCard(faqs: seq<Faq>, openIndex: Option<int>, offset: nat, j: nat)
    requires faqs != [] && j < |Cards(faqs[1..], openIndex, offset + 1)|
    ensures var shift := if Complete(faqs[0]) then 1 else 0;
      j + shift < |Cards(faqs, openIndex, offset)|
      && Cards(faqs, openIndex, offset)[j + shift] == Cards(faqs[1..], openIndex, offset + 1)[j]
  {
  }

  /** Every complete entry is rendered. */
  lemma {:induction false} CardsComplete(faqs: seq<Faq>, openIndex: Option<int>, offset: nat, i: nat)
    requires i < |faqs| && Complete(faqs[i])
    ensures exists j :: 0 <= j < |Cards(faqs, openIndex, offset)| && Cards(faqs, openIndex, offset)[j].index == offset + i
    decreases |faqs|
  {
    if i == 0 {
      FirstCard(faqs, openIndex, offset);
    } else {
      assert faqs[1..][i - 1] == faqs[i];
      CardsComplete(faqs[1..], openIndex, offset + 1, i - 1);
      var j :| 0 <= j < |Cards(faqs[1..], openIndex, offset + 1)| && Cards(faqs[1..], openIndex, offset + 1)[j].index == offset + i;
      LaterCard(faqs, openIndex, offset, j);
    }
  }

  /** At most one card is open. */
  lemma AtMostOneOpen(faqs: seq<Faq>, openIndex: Option<int>, j: nat, k: nat)
    requires j < |Cards(faqs, openIndex, 0)| && k < |Cards(faqs, openIndex, 0)|
    requires Cards(faqs, openIndex, 0)[j].isOpen && Cards(faqs, openIndex, 0)[k].isOpen
    ensures j == k
  {
    var r := Cards(faqs, openIndex, 0);
    CardsFields(faqs, openIndex, 0);
    CardsOrdered(faqs, openIndex, 0);
    assert CardOf(r[j], faqs[r[j].index], openIndex) && CardOf(r[k], faqs[r[k].index], openIndex);
  }

  function CardQuestion(c: Card): string {
    c.question
  }

  /** The question the FAQ schema lists for an entry. */
  function SchemaQuestion(f: Faq): string {
    ToQuestion(f).name
  }

  /** The step of `CardsMatchFilter` for a complete first entry. */
  lemma MatchKeptHead(faqs: seq<Faq>, openIndex: Option<int>, offset: nat)
    requires faqs != [] && Complete(faqs[0])
    requires Map(Cards(faqs[1..], openIndex, offset + 1), CardQuestion) == Map(Filter(faqs[1..], Complete), SchemaQuestion)
    ensures Map(Cards(faqs, openIndex, offset), CardQuestion) == Map(Filter(faqs, Complete), SchemaQuestion)
  {
    var rest := Cards(faqs[1..], openIndex, offset + 1);
    var kept := Filter(faqs[1..], Complete);
    var head := Card(offset, faqs[0].question.value, faqs[0].answer, openIndex == Some(offset));
    assert Cards(faqs, openIndex, offset) == [head] + rest;
    assert Filter(faqs, Complete) == [faqs[0]] + kept;
    MapCons(head, rest, CardQuestion);
    MapCons(faqs[0], kept, SchemaQuestion);
  }

  /** The step of `CardsMatchFilter` for an incomplete first entry. */
  lemma MatchDroppedHead(faqs: seq<Faq>, openIndex: Option<int>, offset: nat)
    requires faqs != [] && !Complete(faqs[0])
    requires Map(Cards(faqs[1..], openIndex, offset + 1), CardQuestion) == Map(Filter(faqs[1..], Complete), SchemaQuestion)
    ensures Map(Cards(faqs, openIndex, offset), CardQuestion) == Map(Filter(faqs, Complete), SchemaQuestion)
  {
    assert Cards(faqs, openIndex, offset) == Cards(faqs[1..], openIndex, offset + 1);
    assert Filter(faqs, Complete) == Filter(faqs[1..], Complete);
  }

  /** The cards are the complete entries the FAQ schema lists, in order,
      with the same questions. */
  lemma {:induction false} CardsMatchFilter(faqs: seq<Faq>, openIndex: Option<int>, offset: nat)
    ensures Map(Cards(faqs, openIndex, offset), CardQuestion) == Map(Filter(faqs, Complete), SchemaQuestion)
    decreases |faqs|
  {
    if faqs != [] {
      CardsMatchFilter(faqs[1..], openIndex, offset + 1);
      if Complete(faqs[0]) {
        MatchKeptHead(faqs, openIndex, offset);
      } else {
        MatchDroppedHead(faqs, openIndex, offset);
      }
    }
  }

  /** The accordion renders the questions the FAQ schema lists. */
  lemma CardsMatchSchema(post: SchemaPost, openIndex: Option<int>)
    requires post.faq.Some? && post.faq.value != []
    ensures |FaqCards(post.faq, openIndex).value| == |FaqSchema(post).value|
    ensures forall j :: 0 <= j < |FaqSchema(post).value| ==>
      FaqSchema(post).value[j].name == FaqCards(post.faq, openIndex).value[j].question
  {
    var r := Cards(post.faq.value, openIndex, 0);
    var kept := Filter(post.faq.value, Complete);
    CardsMatchFilter(post.faq.value, openIndex, 0);
    assert |Map(r, CardQuestion)| == |r|;
    forall j | 0 <= j < |kept|
      ensures Map(kept, ToQuestion)[j].name == r[j].question
    {
      assert Map(r, CardQuestion)[j] == Map(kept, SchemaQuestion)[j];
    }
  }

  /** `toggleFAQ(index)`: the open entry closes, any other opens. */
  function Toggle(openIndex: Option<int>, index: int): (r: Option<int>)
    ensures r == Some(index) <==> openIndex != Some(index)
    ensures r.None? <==> openIndex == Some(index)
  {
    if openIndex == Some(index) then None else Some(index)
  }

  /** Toggling the same entry twice from the closed state closes it again,
      and toggling an entry cannot leave another one open. */
  lemma ToggleTwice(index: int)
    ensures Toggle(Toggle(None, index), index).None?
  {
  }

  lemma ToggleOpensOnlyThat(openIndex: Option<int>, index: int, other: int)
    requires other != index
    ensures Toggle(openIndex, index) != Some(other)
  {
  }

  /** The component's state. */
  class FaqState {
    var openIndex: Option<int>

    constructor()
      ensures openIndex.None?
    {
      openIndex := None;
    }

    method ToggleFaq(index: int)
      modifies this
      ensures openIndex == Toggle(old(openIndex), index)
    {
      if openIndex == Some(index) {
        openIndex := None;
      } else {
        openIndex := Some(index);
      }
    }
  }
}
