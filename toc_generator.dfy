/** The table of contents of a blog post, built from its rich-text body
    (`generateTableOfContents`).

    The walk visits the blocks in pre-order, counts every heading block,
    and emits an entry for each heading whose text is not blank. The
    entry's id carries the heading's number in the count, so dropped
    headings leave gaps. */
module TocGenerator {
  import opened Js
  import opened Seqs
  import opened RichText

  datatype TocItem = TocItem(id: string, text: string, level: int)

  // ---------------------------------------------------------------------
  // Recognising a heading and reading its level.

  /** `a || b` on optional strings: `undefined` and `''` are skipped. */
  function StrOr(a: Option<string>, b: Option<string>): (r: Option<string>)
    ensures a.Some? && a.value != "" ==> r == a
    ensures !(a.Some? && a.value != "") ==> r == b
  {
    if a.Some? && a.value != "" then a else b
  }

  /** `block.type || (block.block_type || block.kind || block.nodeType)`. */
  function FinalType(b: Block): Option<string> {
    StrOr(b.typeName, StrOr(StrOr(b.blockType, b.kind), b.nodeType))
  }

  const HeadingTypes: set<string> :=
    {"heading1", "heading2", "heading3", "heading4", "heading5", "heading6",
     "h1", "h2", "h3", "h4", "h5", "h6"}

  /** The one-character-level shape of the heading types: `h` or `heading`
      followed by a digit from 1 to 6. */
  predicate IsHeadingType(t: string) {
    (|t| == 2 && t[0] == 'h' && '1' <= t[1] <= '6')
    || (|t| == 8 && t[..7] == "heading" && '1' <= t[7] <= '6')
  }

  predicate IsHeading(b: Block) {
    FinalType(b).Some? && IsHeadingType(FinalType(b).value)
  }

  predicate IsDigit(c: char) {
    '0' <= c <= '9'
  }

  /** The longest prefix of decimal digits. */
  function LeadingDigits(s: string): (r: string)
    ensures r <= s && forall i :: 0 <= i < |r| ==> IsDigit(r[i])
    ensures |r| < |s| ==> !IsDigit(s[|r|])
  {
    if s == [] || !IsDigit(s[0]) then "" else [s[0]] + LeadingDigits(s[1..])
  }

  /** `parseInt(s)` on a string with no leading blanks or sign: the value
      of its leading digits, or `None` (NaN) when there are none. */
  function ParseInt(s: string): Option<int> {
    var d := LeadingDigits(s);
    if d == "" then None else Some(ParseDigits(d))
  }

  /** `parseInt(...) || 1`: NaN and 0 become 1. */
  function OrOne(p: Option<int>): int {
    if p.Some? && p.value != 0 then p.value else 1
  }

  /** The level of a heading type. `t.replace(prefix, "")` removes the first
      occurrence of the prefix, which the `startsWith` guard puts at the
      front, so it drops the prefix. */
  function HeadingLevel(t: string): int {
    if StartsWith(t, "heading") then OrOne(ParseInt(t[7..]))
    else if StartsWith(t, "h") then OrOne(ParseInt(t[1..]))
    else 1
  }

  /** Every recognised heading type has as its level the digit it ends
      with, which lies in 1..6. */
  lemma LevelIsDigit(t: string)
    requires IsHeadingType(t)
    ensures HeadingLevel(t) == DigitValue(t[|t| - 1])
    ensures 1 <= HeadingLevel(t) <= 6
  {
    var d := t[|t| - 1];
    var rest := if StartsWith(t, "heading") then t[7..] else t[1..];
    assert rest == [d];
    assert LeadingDigits(rest) == [d];
    assert ParseDigits([d]) == ParseDigits([]) * 10 + DigitValue(d);
  }

  // ---------------------------------------------------------------------
  // A heading's text, in order of precedence.

  /** `span.text || ""` */
  function SpanText(sp: Span): string {
    if sp.text.Some? then sp.text.value else ""
  }

  /** A child's own string `text`, else its string `content`, else "". */
  function ChildText(n: Node): string {
    match n
    case Obj(c) => OrElse(if c.text.Some? then c.text.value else "", if c.content.Scalar? then c.content.s else "")
    case _ => ""
  }

  /** `parts.filter(Boolean).join("")` */
  function Joined(parts: seq<string>): string {
    Concat(Filter(parts, NonEmpty))
  }

  /** Dropping the empty parts does not change the joined string. */
  lemma {:induction false} JoinedIsConcat(parts: seq<string>)
    ensures Joined(parts) == Concat(parts)
  {
    if parts != [] {
      JoinedIsConcat(parts[1..]);
      assert Filter(parts, NonEmpty)
        == (if NonEmpty(parts[0]) then [parts[0]] else []) + Filter(parts[1..], NonEmpty);
      ConcatAppend(if NonEmpty(parts[0]) then [parts[0]] else [], Filter(parts[1..], NonEmpty));
      assert Concat([parts[0]]) == parts[0] + Concat([]);
    }
  }

  /** The span texts, one after the other. */
  function SpansText(sps: seq<Span>): string {
    if sps == [] then "" else SpanText(sps[0]) + SpansText(sps[1..])
  }

  /** The child texts, one after the other. */
  function ChildrenText(ns: seq<Node>): string {
    if ns == [] then "" else ChildText(ns[0]) + ChildrenText(ns[1..])
  }

  lemma {:induction false} SpansTextIsJoined(sps: seq<Span>)
    ensures SpansText(sps) == Joined(Map(sps, SpanText))
  {
    if sps != [] {
      SpansTextIsJoined(sps[1..]);
      JoinedIsConcat(Map(sps, SpanText));
      JoinedIsConcat(Map(sps[1..], SpanText));
      assert Map(sps, SpanText) == [SpanText(sps[0])] + Map(sps[1..], SpanText);
    }
  }

  lemma {:induction false} ChildrenTextIsJoined(ns: seq<Node>)
    ensures ChildrenText(ns) == Joined(Map(ns, ChildText))
  {
    if ns != [] {
      ChildrenTextIsJoined(ns[1..]);
      JoinedIsConcat(Map(ns, ChildText));
      JoinedIsConcat(Map(ns[1..], ChildText));
      assert Map(ns, ChildText) == [ChildText(ns[0])] + Map(ns[1..], ChildText);
    }
  }

  /** The text from the block's structure: its own `text`, else the joined
      span texts when it has a spans array, else the joined child texts. */
  function StructuredText(b: Block): string {
    if b.text.Some? && b.text.value != "" then b.text.value
    else if b.spans.Some? then SpansText(b.spans.value)
    else ChildrenText(b.children)
  }

  /** The properties the last fallback looks at: `text`, `content`,
      `value` and `label`. A nested content list is not a string. */
  function TextProps(b: Block): seq<JsValue> {
    [if b.text.Some? then Str(b.text.value) else Undefined,
     if b.content.Scalar? then Str(b.content.s) else Undefined,
     b.value,
     b.labelProp]
  }

  /** The first truthy string among `vs`, or "". */
  function FirstString(vs: seq<JsValue>): (r: string)
    ensures r == "" || exists i :: 0 <= i < |vs| && vs[i] == Str(r)
    ensures forall i :: 0 <= i < |vs| && vs[i].Str? && vs[i].s != "" ==> r != ""
    ensures forall i ::
              (0 <= i < |vs| && vs[i].Str? && vs[i].s != "" && forall j :: 0 <= j < i ==> !(vs[j].Str? && vs[j].s != ""))
              ==> r == vs[i].s
  {
    if vs == [] then ""
    else if vs[0].Str? && vs[0].s != "" then vs[0].s
    else FirstString(vs[1..])
  }

  function HeadingText(b: Block): string {
    var t := StructuredText(b);
    if t != "" then t else FirstString(TextProps(b))
  }

  function HeadingId(n: nat): string {
    "heading-" + NatToString(n)
  }

  lemma HeadingIdInjective(a: nat, b: nat)
    requires HeadingId(a) == HeadingId(b)
    ensures a == b
  {
    assert NatToString(a) == HeadingId(a)[8..];
    NatToStringInjective(a, b);
  }

  /** The twelve type names the walk recognises are exactly the strings of
      the heading shape. */
  lemma HeadingTypesShape(t: string)
    ensures t in HeadingTypes <==> IsHeadingType(t)
  {
    if IsHeadingType(t) {
      var d := t[|t| - 1];
      if |t| == 2 {
        assert t == ['h', d];
        if d == '1' { assert t == "h1"; } else if d == '2' { assert t == "h2"; }
        else if d == '3' { assert t == "h3"; } else if d == '4' { assert t == "h4"; }
        else if d == '5' { assert t == "h5"; } else { assert t == "h6"; }
      } else {
        assert t == "heading" + [d];
        if d == '1' { assert t == "heading1"; } else if d == '2' { assert t == "heading2"; }
        else if d == '3' { assert t == "heading3"; } else if d == '4' { assert t == "heading4"; }
        else if d == '5' { assert t == "heading5"; } else { assert t == "heading6"; }
      }
    }
  }

  // ---------------------------------------------------------------------
  // The specification: the entries of a flat list of visited blocks.

  /** What the walk makes of one visited block: nothing, or a heading with
      its trimmed text (possibly empty) and its level. */
  datatype Kind = Other | Heading(text: string, level: int)

  function Classify(b: Block): (kd: Kind)
    ensures kd.Heading? <==> IsHeading(b)
  {
    if IsHeading(b) then Heading(Trim(HeadingText(b)), HeadingLevel(FinalType(b).value)) else Other
  }

  /** A heading's level is in 1..6 and its text has no blank at either end. */
  predicate WellFormedKind(kd: Kind) {
    kd.Heading? ==> 1 <= kd.level <= 6 && Trimmed(kd.text)
  }

  lemma ClassifyWellFormed(b: Block)
    ensures WellFormedKind(Classify(b))
  {
    if IsHeading(b) {
      LevelIsDigit(FinalType(b).value);
      TrimFacts(HeadingText(b));
    }
  }

  function Kinds(bs: seq<Block>): (ks: seq<Kind>)
    ensures |ks| == |bs|
  {
    if bs == [] then [] else [Classify(bs[0])] + Kinds(bs[1..])
  }

  lemma {:induction false} KindsAt(bs: seq<Block>, i: nat)
    requires i < |bs|
    ensures Kinds(bs)[i] == Classify(bs[i])
  {
    if i > 0 {
      KindsAt(bs[1..], i - 1);
    }
  }

  lemma {:induction false} KindsAppend(a: seq<Block>, b: seq<Block>)
    ensures Kinds(a + b) == Kinds(a) + Kinds(b)
  {
    if a == [] {
      assert a + b == b;
    } else {
      assert (a + b)[1..] == a[1..] + b;
      KindsAppend(a[1..], b);
    }
  }

  function HeadingCount(ks: seq<Kind>): nat {
    if ks == [] then 0 else (if ks[0].Heading? then 1 else 0) + HeadingCount(ks[1..])
  }

  /** Whether a classified block yields an entry. */
  predicate HasEntry(kd: Kind) {
    kd.Heading? && kd.text != ""
  }

  /** The entries for `ks` when `k` headings have been counted before it:
      every heading advances the count, and those with a text get an entry
      whose id carries the count. */
  function Entries(ks: seq<Kind>, k: nat): seq<TocItem> {
    if ks == [] then []
    else if ks[0].Heading? then
      (if ks[0].text != "" then [TocItem(HeadingId(k + 1), ks[0].text, ks[0].level)] else [])
      + Entries(ks[1..], k + 1)
    else Entries(ks[1..], k)
  }

  /** The heading number behind each entry of `Entries(ks, k)`. */
  function EntryNumbers(ks: seq<Kind>, k: nat): seq<nat> {
    if ks == [] then []
    else if ks[0].Heading? then
      (if ks[0].text != "" then [k + 1] else []) + EntryNumbers(ks[1..], k + 1)
    else EntryNumbers(ks[1..], k)
  }

  /** A single heading is numbered after the ones before it. */
  lemma EntriesOfOne(kd: Kind, k: nat)
    ensures Entries([kd], k) == if HasEntry(kd) then [TocItem(HeadingId(k + 1), kd.text, kd.level)] else []
    ensures HeadingCount([kd]) == if kd.Heading? then 1 else 0
  {
    assert [kd][1..] == [];
  }

  /** The entries of the visited blocks `bs`. */
  function TocFrom(bs: seq<Block>, k: nat): seq<TocItem> {
    Entries(Kinds(bs), k)
  }

  /** The number of headings among the visited blocks `bs`. */
  function Headings(bs: seq<Block>): nat {
    HeadingCount(Kinds(bs))
  }

  lemma {:induction false} HeadingCountAppend(a: seq<Kind>, b: seq<Kind>)
    ensures HeadingCount(a + b) == HeadingCount(a) + HeadingCount(b)
  {
    if a == [] {
      assert a + b == b;
    } else {
      assert (a + b)[1..] == a[1..] + b;
      HeadingCountAppend(a[1..], b);
    }
  }

  lemma {:induction false} EntriesAppend(a: seq<Kind>, b: seq<Kind>, k: nat)
    ensures Entries(a + b, k) == Entries(a, k) + Entries(b, k + HeadingCount(a))
  {
    if a == [] {
      assert a + b == b;
    } else {
      assert (a + b)[1..] == a[1..] + b;
      if a[0].Heading? {
        EntriesAppend(a[1..], b, k + 1);
      } else {
        EntriesAppend(a[1..], b, k);
      }
    }
  }

  /** The entries are numbered by the running heading count: each entry's
      id is `heading-N` for its heading's number N, the numbers strictly
      increase, and they lie after `k` and within the headings of `ks`. */
  lemma {:induction false} EntriesNumbering(ks: seq<Kind>, k: nat)
    ensures var r := Entries(ks, k); var ns := EntryNumbers(ks, k);
      && |ns| == |r|
      && (forall i :: 0 <= i < |r| ==> r[i].id == HeadingId(ns[i]))
      && (forall i :: 0 <= i < |ns| ==> k < ns[i] <= k + HeadingCount(ks))
      && (forall i, j :: 0 <= i < j < |ns| ==> ns[i] < ns[j])
  {
    if ks != [] {
      if ks[0].Heading? {
        EntriesNumbering(ks[1..], k + 1);
      } else {
        EntriesNumbering(ks[1..], k);
      }
    }
  }

  /** Walking two lists one after the other numbers the second after the
      headings of the first. */
  lemma TocFromAppend(a: seq<Block>, b: seq<Block>, k: nat)
    ensures TocFrom(a + b, k) == TocFrom(a, k) + TocFrom(b, k + Headings(a))
    ensures Headings(a + b) == Headings(a) + Headings(b)
  {
    KindsAppend(a, b);
    EntriesAppend(Kinds(a), Kinds(b), k);
    HeadingCountAppend(Kinds(a), Kinds(b));
  }

  /** No two entries share an id. */
  lemma TocIdsUnique(bs: seq<Block>, k: nat)
    ensures var r := TocFrom(bs, k);
      forall i, j :: 0 <= i < |r| && 0 <= j < |r| && i != j ==> r[i].id != r[j].id
  {
    var r := TocFrom(bs, k);
    var ns := EntryNumbers(Kinds(bs), k);
    EntriesNumbering(Kinds(bs), k);
    forall i, j | 0 <= i < |r| && 0 <= j < |r| && i != j
      ensures r[i].id != r[j].id
    {
      if r[i].id == r[j].id {
        HeadingIdInjective(ns[i], ns[j]);
      }
    }
  }

  /** An entry's level is in 1..6 and its text is non-empty with no blank
      at either end. */
  predicate WellFormedItem(item: TocItem) {
    1 <= item.level <= 6 && item.text != "" && Trimmed(item.text)
  }

  /** Entries of well-formed kinds are well formed. */
  lemma {:induction false} EntriesWellFormed(ks: seq<Kind>, k: nat)
    requires forall i :: 0 <= i < |ks| ==> WellFormedKind(ks[i])
    ensures forall i :: 0 <= i < |Entries(ks, k)| ==> WellFormedItem(Entries(ks, k)[i])
  {
    if ks != [] {
      var kd := ks[0];
      assert WellFormedKind(kd);
      var k' := if kd.Heading? then k + 1 else k;
      var head := if HasEntry(kd) then [TocItem(HeadingId(k + 1), kd.text, kd.level)] else [];
      var rest := Entries(ks[1..], k');
      EntriesWellFormed(ks[1..], k');
      assert Entries(ks, k) == head + rest;
      forall i | 0 <= i < |head + rest|
        ensures WellFormedItem((head + rest)[i])
      {
        if i >= |head| {
          assert (head + rest)[i] == rest[i - |head|];
          assert WellFormedItem(rest[i - |head|]);
        } else {
          assert (head + rest)[i] == TocItem(HeadingId(k + 1), kd.text, kd.level);
          assert WellFormedItem(TocItem(HeadingId(k + 1), kd.text, kd.level));
        }
      }
    }
  }

  /** Every entry has a level in 1..6 and a text that is non-empty, has no
      blank at either end and is its own trim. */
  lemma TocEntriesWellFormed(bs: seq<Block>, k: nat)
    ensures forall i :: 0 <= i < |TocFrom(bs, k)| ==> WellFormedItem(TocFrom(bs, k)[i])
    ensures forall i :: 0 <= i < |TocFrom(bs, k)| ==> Trim(TocFrom(bs, k)[i].text) == TocFrom(bs, k)[i].text
  {
    var ks := Kinds(bs);
    forall i | 0 <= i < |ks|
      ensures WellFormedKind(ks[i])
    {
      KindsAt(bs, i);
      ClassifyWellFormed(bs[i]);
    }
    EntriesWellFormed(ks, k);
    forall i | 0 <= i < |TocFrom(bs, k)|
      ensures Trim(TocFrom(bs, k)[i].text) == TocFrom(bs, k)[i].text
    {
      assert WellFormedItem(TocFrom(bs, k)[i]);
      TrimOfTrimmed(TocFrom(bs, k)[i].text);
    }
  }

  /** Exactly the headings with a text yield an entry, in order. */
  lemma {:induction false} EntriesCount(ks: seq<Kind>, k: nat)
    ensures |Entries(ks, k)| == |Filter(ks, HasEntry)|
    ensures |Entries(ks, k)| <= HeadingCount(ks)
    ensures forall i :: 0 <= i < |Entries(ks, k)| ==>
      Entries(ks, k)[i].text == Filter(ks, HasEntry)[i].text
      && Entries(ks, k)[i].level == Filter(ks, HasEntry)[i].level
  {
    if ks != [] {
      assert Filter(ks, HasEntry) == (if HasEntry(ks[0]) then [ks[0]] else []) + Filter(ks[1..], HasEntry);
      if ks[0].Heading? {
        EntriesCount(ks[1..], k + 1);
      } else {
        EntriesCount(ks[1..], k);
      }
    }
  }

  // ---------------------------------------------------------------------
  // The body the function accepts.

  /** A property of a wrapper object: an array of entries, or anything else. */
  datatype Wrapped = ArrayOf(nodes: seq<Node>) | NotArray

  datatype Body =
    | Falsy                                       // null, undefined, '', 0, false
    | ArrayBody(nodes: seq<Node>)
    | ObjectBody(content: Wrapped, blocks: Wrapped)
    | OtherTruthy                                 // a non-empty string, a number, ...

  /** The block list the body unwraps to; `content` wins over `blocks`. */
  function BodyBlocks(body: Body): seq<Node> {
    match body
    case ArrayBody(ns) => ns
    case ObjectBody(c, bl) => if c.ArrayOf? then c.nodes else if bl.ArrayOf? then bl.nodes else []
    case _ => []
  }

  /** The table of contents of a body. */
  function Toc(body: Body): (r: seq<TocItem>)
    ensures forall i, j :: 0 <= i < |r| && 0 <= j < |r| && i != j ==> r[i].id != r[j].id
    ensures forall i :: 0 <= i < |r| ==> WellFormedItem(r[i])
  {
    TocIdsUnique(PreOrder(BodyBlocks(body)), 0);
    TocEntriesWellFormed(PreOrder(BodyBlocks(body)), 0);
    TocFrom(PreOrder(BodyBlocks(body)), 0)
  }

  /** Without a block list there are no entries. */
  lemma TocOfNoBlocks(body: Body)
    requires body.Falsy? || body.OtherTruthy? || BodyBlocks(body) == []
    ensures Toc(body) == []
  {
  }

  // ---------------------------------------------------------------------
  // The imperative walk.

  /** The state of one `generateTableOfContents` call: `tocItems` and
      `headingCounter`, which the recursive `traverse` mutates. */
  class TocBuilder {
    var items: seq<TocItem>
    var counter: nat

    constructor()
      ensures items == [] && counter == 0
    {
      items := [];
      counter := 0;
    }

    /** The text of a heading block, tried in order of precedence. */
    static method ExtractText(block: Block) returns (text: string)
      ensures text == HeadingText(block)
    {
      text := "";
      if block.text.Some? && block.text.value != "" {
        text := block.text.value;
      } else if block.spans.Some? {
        text := Joined(Map(block.spans.value, SpanText));
        SpansTextIsJoined(block.spans.value);
      } else {
        text := Joined(Map(block.children, ChildText));
        ChildrenTextIsJoined(block.children);
      }
      if text == "" {
        var props := TextProps(block);
        for p := 0 to |props|
          invariant text == "" ==> FirstString(props) == FirstString(props[p..])
          invariant text != "" ==> text == FirstString(props)
        {
          if props[p].Str? && props[p].s != "" {
            text := props[p].s;
            break;
          }
          assert props[p..][1..] == props[p + 1..];
        }
        if text == "" {
          assert props[|props|..] == [];
        }
      }
    }

    /** Counts the block if it is a heading and records its entry when its
        text is not blank. */
    method Visit(block: Block)
      modifies this
      ensures items == old(items) + TocFrom([block], old(counter))
      ensures counter == old(counter) + Headings([block])
    {
      ghost var kd := Classify(block);
      assert Kinds([block]) == [kd];
      EntriesOfOne(kd, counter);
      var finalType := FinalType(block);
      if finalType.Some? {
        HeadingTypesShape(finalType.value);
      }
      if finalType.Some? && finalType.value in HeadingTypes {
        counter := counter + 1;
        var t := finalType.value;
        var level := 1;
        if StartsWith(t, "heading") {
          level := OrOne(ParseInt(t[7..]));
        } else if StartsWith(t, "h") {
          level := OrOne(ParseInt(t[1..]));
        }
        assert level == HeadingLevel(t);
        var text := ExtractText(block);
        assert kd == Heading(Trim(text), level);
        var id := HeadingId(counter);
        if Trim(text) != "" {
          items := items + [TocItem(id, Trim(text), level)];
        }
      }
    }

    /** `traverse(blockArray)`: handles each entry in turn. */
    method Traverse(ns: seq<Node>)
      modifies this
      ensures items == old(items) + TocFrom(PreOrder(ns), old(counter))
      ensures counter == old(counter) + Headings(PreOrder(ns))
      decreases ns, 2
    {
      for i := 0 to |ns|
        invariant items == old(items) + TocFrom(PreOrder(ns[..i]), old(counter))
        invariant counter == old(counter) + Headings(PreOrder(ns[..i]))
      {
        PreOrderSnoc(ns, i);
        ghost var before := PreOrder(ns[..i]);
        TraverseEntry(ns[i]);
        TocFromAppend(before, NodePre(ns[i]), old(counter));
      }
      assert ns[..|ns|] == ns;
    }

    /** One entry of the loop: an object is visited and then its nested
        lists are walked; anything else is skipped. */
    method TraverseEntry(n: Node)
      modifies this
      ensures items == old(items) + TocFrom(NodePre(n), old(counter))
      ensures counter == old(counter) + Headings(NodePre(n))
      decreases n, 1
    {
      if n.Obj? {
        ghost var k0, items0 := counter, items;
        Visit(n.b);
        TraverseNested(n);
        ObjectEntrySplit(n.b, k0, items0);
      } else {
        assert NodePre(n) == [];
      }
    }

    /** The nested lists of an object entry: its `items`, its `content`
        when that is a list, and its `children`, in that order. */
    method TraverseNested(n: Node)
      requires n.Obj?
      modifies this
      ensures items == old(items) + TocFrom(NestedBlocks(n.b), old(counter))
      ensures counter == old(counter) + Headings(NestedBlocks(n.b))
      decreases n, 0
    {
      var block := n.b;
      ghost var k0, items0 := counter, items;
      Traverse(block.items);
      ghost var k1, a := counter, TocFrom(PreOrder(block.items), k0);
      ghost var contentBlocks: seq<Block> := [];
      if block.content.Nested? {
        contentBlocks := PreOrder(block.content.nodes);
        Traverse(block.content.nodes);
      }
      ghost var k2, b := counter, TocFrom(contentBlocks, k1);
      assert items == items0 + a + b;
      Traverse(block.children);
      ghost var c := TocFrom(PreOrder(block.children), k2);
      assert items == items0 + a + b + c;
      NestedBlocksParts(block, contentBlocks);
      TocFromAppend3(PreOrder(block.items), contentBlocks, PreOrder(block.children), k0);
      AppendAssoc3(items0, a, b, c);
    }
  }

  /** The blocks of an object's nested lists, in walk order. */
  function NestedBlocks(b: Block): seq<Block> {
    PreOrder(b.items)
    + (if b.content.Nested? then PreOrder(b.content.nodes) else [])
    + PreOrder(b.children)
  }

  /** What `TraverseEntry` appends for an object: the object's own entry,
      then those of its nested lists. */
  lemma ObjectEntrySplit(b: Block, k: nat, items: seq<TocItem>)
    ensures var k1 := k + Headings([b]);
      && items + TocFrom([b], k) + TocFrom(NestedBlocks(b), k1) == items + TocFrom(NodePre(Obj(b)), k)
      && k1 + Headings(NestedBlocks(b)) == k + Headings(NodePre(Obj(b)))
  {
    NodePreSplit(b);
    TocFromAppend([b], NestedBlocks(b), k);
    AppendAssoc(items, TocFrom([b], k), TocFrom(NestedBlocks(b), k + Headings([b])));
  }

  lemma {:induction false} NodePreSplit(b: Block)
    ensures NodePre(Obj(b)) == [b] + NestedBlocks(b)
  {
  }

  lemma NestedBlocksParts(b: Block, contentBlocks: seq<Block>)
    requires contentBlocks == if b.content.Nested? then PreOrder(b.content.nodes) else []
    ensures NestedBlocks(b) == PreOrder(b.items) + contentBlocks + PreOrder(b.children)
  {
  }

  lemma AppendAssoc3<T>(p: seq<T>, a: seq<T>, b: seq<T>, c: seq<T>)
    ensures p + a + b + c == p + (a + b + c)
  {
  }

  /** Walking three lists one after the other numbers each after the
      headings of the ones before. */
  lemma TocFromAppend3(x: seq<Block>, y: seq<Block>, z: seq<Block>, k: nat)
    ensures var k1 := k + Headings(x);
      var k2 := k1 + Headings(y);
      && TocFrom(x + y + z, k) == TocFrom(x, k) + TocFrom(y, k1) + TocFrom(z, k2)
      && Headings(x + y + z) == Headings(x) + Headings(y) + Headings(z)
  {
    TocFromAppend(x + y, z, k);
    TocFromAppend(x, y, k);
  }

  /** `generateTableOfContents(body)` */
  method GenerateTableOfContents(body: Body) returns (toc: seq<TocItem>)
    ensures toc == Toc(body)
  {
    if body.Falsy? {
      return [];
    }
    var blocks: seq<Node> := [];
    if body.ArrayBody? {
      blocks := body.nodes;
    } else if body.ObjectBody? {
      if body.content.ArrayOf? {
        blocks := body.content.nodes;
      } else if body.blocks.ArrayOf? {
        blocks := body.blocks.nodes;
      } else {
        return [];
      }
    } else {
      return [];
    }
    if |blocks| == 0 {
      return [];
    }
    var builder := new TocBuilder();
    builder.Traverse(blocks);
    toc := builder.items;
  }
}
