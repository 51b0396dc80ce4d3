/** Gym locations as the site reads them from the CMS: the feature list
    pulled out of a rich-text field (`extractListItems`) and the field
    defaults of `transformLocation`, `getAllLocations` and
    `getLocationBySlug`.

    The CMS renderers `asText` and `asHTML` are not modelled: a document
    carries their results as plain strings, and the list that the HTML
    fallback of `extractListItems` would produce is carried as a list of
    strings. Numbers are integers. */
module LocationData {
  import opened Js
  import opened Seqs
  import opened RichText

  // ---------------------------------------------------------------------
  // The list-item walk.

  /** The rich-text field as `extractListItems` tests it. */
  datatype RichField = FalsyField | ArrayField(nodes: seq<Node>) | OtherField

  predicate IsListItem(b: Block) {
    b.typeName == Some("list-item") || b.typeName == Some("o-list-item")
  }

  /** `block.text || ""`, trimmed. */
  function ItemValue(b: Block): string {
    Trim(if b.text.Some? then b.text.value else "")
  }

  predicate YieldsItem(b: Block) {
    IsListItem(b) && ItemValue(b) != ""
  }

  /** The blocks the walk visits, in order: each object entry, then the
      entries of its `items`. `children` and `content` are never entered. */
  function ItemsWalk(ns: seq<Node>): seq<Block>
    decreases ns, 1
  {
    if ns == [] then [] else NodeWalk(ns[0]) + ItemsWalk(ns[1..])
  }

  function NodeWalk(n: Node): seq<Block>
    decreases n, 0
  {
    match n
    case Obj(b) => [b] + ItemsWalk(b.items)
    case _ => []
  }

  /** Whether the walk meets a `null`/`undefined` entry, on which reading
      `block.type` throws. */
  predicate HitsMissing(ns: seq<Node>)
    decreases ns, 1
  {
    ns != [] && (NodeHitsMissing(ns[0]) || HitsMissing(ns[1..]))
  }

  predicate NodeHitsMissing(n: Node)
    decreases n, 0
  {
    match n
    case Missing => true
    case Primitive => false
    case Obj(b) => HitsMissing(b.items)
  }

  /** The trimmed texts of the list items among `bs` that have one. */
  function Collected(bs: seq<Block>): seq<string> {
    if bs == [] then []
    else (if YieldsItem(bs[0]) then [ItemValue(bs[0])] else []) + Collected(bs[1..])
  }

  lemma {:induction false} ItemsWalkAppend(a: seq<Node>, b: seq<Node>)
    ensures ItemsWalk(a + b) == ItemsWalk(a) + ItemsWalk(b)
  {
    if a == [] {
      assert a + b == b;
    } else {
      assert (a + b)[1..] == a[1..] + b;
      ItemsWalkAppend(a[1..], b);
    }
  }

  lemma {:induction false} HitsMissingAppend(a: seq<Node>, b: seq<Node>)
    ensures HitsMissing(a + b) <==> HitsMissing(a) || HitsMissing(b)
  {
    if a == [] {
      assert a + b == b;
    } else {
      assert (a + b)[1..] == a[1..] + b;
      HitsMissingAppend(a[1..], b);
    }
  }

  lemma {:induction false} CollectedAppend(a: seq<Block>, b: seq<Block>)
    ensures Collected(a + b) == Collected(a) + Collected(b)
  {
    if a == [] {
      assert a + b == b;
    } else {
      var h := if YieldsItem(a[0]) then [ItemValue(a[0])] else [];
      assert (a + b)[0] == a[0] && (a + b)[1..] == a[1..] + b;
      CollectedAppend(a[1..], b);
      assert Collected(a + b) == h + (Collected(a[1..]) + Collected(b));
      AppendAssoc(h, Collected(a[1..]), Collected(b));
    }
  }

  lemma WalkSnoc(ns: seq<Node>, i: nat)
    requires i < |ns|
    ensures ItemsWalk(ns[..i + 1]) == ItemsWalk(ns[..i]) + NodeWalk(ns[i])
    ensures HitsMissing(ns[..i + 1]) <==> HitsMissing(ns[..i]) || NodeHitsMissing(ns[i])
  {
    assert ns[..i + 1] == ns[..i] + [ns[i]];
    ItemsWalkAppend(ns[..i], [ns[i]]);
    HitsMissingAppend(ns[..i], [ns[i]]);
    assert ItemsWalk([ns[i]]) == NodeWalk(ns[i]) + ItemsWalk([]);
    assert HitsMissing([ns[i]]) == (NodeHitsMissing(ns[i]) || HitsMissing([]));
  }

  /** The collected list is the texts of the list items that have one,
      kept in walk order: `filter` then `map`. */
  lemma {:induction false} CollectedIsFilterMap(bs: seq<Block>)
    ensures Collected(bs) == Map(Filter(bs, YieldsItem), ItemValue)
  {
    if bs != [] {
      CollectedIsFilterMap(bs[1..]);
      var rest := Filter(bs[1..], YieldsItem);
      if YieldsItem(bs[0]) {
        assert Filter(bs, YieldsItem) == [bs[0]] + rest;
        MapCons(bs[0], rest, ItemValue);
      } else {
        assert Filter(bs, YieldsItem) == rest;
      }
    }
  }

  /** Every collected item is non-empty and already trimmed. */
  lemma CollectedWellFormed(bs: seq<Block>)
    ensures forall i :: 0 <= i < |Collected(bs)| ==> Collected(bs)[i] != "" && Trimmed(Collected(bs)[i])
  {
    CollectedIsFilterMap(bs);
    var f := Filter(bs, YieldsItem);
    forall i | 0 <= i < |Collected(bs)|
      ensures Collected(bs)[i] != "" && Trimmed(Collected(bs)[i])
    {
      assert Collected(bs)[i] == ItemValue(f[i]) && YieldsItem(f[i]);
      ItemValueTrimmed(f[i]);
    }
  }

  lemma ItemValueTrimmed(b: Block)
    ensures Trimmed(ItemValue(b))
  {
    TrimFacts(if b.text.Some? then b.text.value else "");
  }

  lemma CollectedOne(b: Block)
    ensures Collected([b]) == if YieldsItem(b) then [ItemValue(b)] else []
  {
    assert [b][1..] == [];
  }

  /** One more entry extends the walk by that entry's walk. */
  lemma WalkStep(ns: seq<Node>, i: nat)
    requires i < |ns|
    ensures Collected(ItemsWalk(ns[..i + 1])) == Collected(ItemsWalk(ns[..i])) + Collected(NodeWalk(ns[i]))
    ensures HitsMissing(ns[..i + 1]) <==> HitsMissing(ns[..i]) || NodeHitsMissing(ns[i])
  {
    WalkSnoc(ns, i);
    CollectedAppend(ItemsWalk(ns[..i]), NodeWalk(ns[i]));
  }

  /** A throw in a prefix of the walk is a throw of the whole walk. */
  lemma PrefixHitsMissing(ns: seq<Node>, i: nat)
    requires i <= |ns| && HitsMissing(ns[..i])
    ensures HitsMissing(ns)
  {
    assert ns[..i] + ns[i..] == ns;
    HitsMissingAppend(ns[..i], ns[i..]);
  }

  /** A block's `children` and `content` play no part in the walk. */
  lemma NestingOutsideItemsIgnored(b: Block, children: seq<Node>, content: Content)
    ensures NodeWalk(Obj(b)) == [b] + ItemsWalk(b.items)
    ensures Collected(NodeWalk(Obj(b.(children := children, content := content))))
         == Collected([b.(children := children, content := content)]) + Collected(ItemsWalk(b.items))
    ensures Collected([b.(children := children, content := content)]) == Collected([b])
    ensures NodeHitsMissing(Obj(b.(children := children, content := content))) == NodeHitsMissing(Obj(b))
  {
    var b' := b.(children := children, content := content);
    CollectedAppend([b'], ItemsWalk(b.items));
  }

  /** The state of one `extractListItems` call: the `items` array that the
      recursive `traverse` pushes to. */
  class ListCollector {
    var items: seq<string>

    constructor()
      ensures items == []
    {
      items := [];
    }

    /** `traverse(blocks)`. It returns false when it throws; the partly
        filled list is then thrown away by the callers. */
    method Traverse(ns: seq<Node>) returns (ok: bool)
      modifies this
      ensures ok <==> !HitsMissing(ns)
      ensures ok ==> items == old(items) + Collected(ItemsWalk(ns))
      decreases ns, 1
    {
      for i := 0 to |ns|
        invariant !HitsMissing(ns[..i])
        invariant items == old(items) + Collected(ItemsWalk(ns[..i]))
      {
        WalkStep(ns, i);
        ghost var done := Collected(ItemsWalk(ns[..i]));
        ok := TraverseEntry(ns[i]);
        if !ok {
          PrefixHitsMissing(ns, i + 1);
          return;
        }
        AppendAssoc(old(items), done, Collected(NodeWalk(ns[i])));
      }
      assert ns[..|ns|] == ns;
      ok := true;
    }

    /** One entry of the loop: reading `block.type` on a missing entry
        throws; an object list item with a text is pushed, then its `items`
        are walked. */
    method TraverseEntry(n: Node) returns (ok: bool)
      modifies this
      ensures ok <==> !NodeHitsMissing(n)
      ensures ok ==> items == old(items) + Collected(NodeWalk(n))
      decreases n, 0
    {
      if n.Missing? {
        return false;
      }
      if n.Primitive? {
        assert NodeWalk(n) == [];
        return true;
      }
      VisitItem(n.b);
      ok := Traverse(n.b.items);
      CollectedAppend([n.b], ItemsWalk(n.b.items));
      AppendAssoc(old(items), Collected([n.b]), Collected(ItemsWalk(n.b.items)));
    }

    /** The body of the loop for one block: a list item's text, when it is
        not blank after trimming, is pushed. Both branches on `spans` read
        `block.text`. */
    method VisitItem(block: Block)
      modifies this
      ensures items == old(items) + Collected([block])
    {
      CollectedOne(block);
      if block.typeName == Some("list-item") || block.typeName == Some("o-list-item") {
        var text := "";
        if block.spans.Some? {
          text := if block.text.Some? then block.text.value else "";
        } else {
          text := if block.text.Some? then block.text.value else "";
        }
        var value := Trim(text);
        if value != "" {
          items := items + [value];
        }
      }
    }
  }

  /** What `extractListItems` returns: `None` when it throws. */
  function ListItems(field: RichField, fallback: seq<string>): (r: Option<seq<string>>)
    ensures r.None? <==> field.ArrayField? && HitsMissing(field.nodes)
    ensures field.FalsyField? ==> r == Some([])
    ensures r.Some? ==> r.value == fallback || forall i :: 0 <= i < |r.value| ==> r.value[i] != "" && Trimmed(r.value[i])
  {
    match field
    case FalsyField => Some([])
    case OtherField => Some(fallback)
    case ArrayField(ns) =>
      if HitsMissing(ns) then None
      else
        CollectedWellFormed(ItemsWalk(ns));
        var found := Collected(ItemsWalk(ns));
        Some(if found == [] then fallback else found)
  }

  /** `extractListItems(field)`. `fallback` is what the HTML fallback would
      produce; it is used only when the walk finds no item. */
  method ExtractListItems(field: RichField, fallback: seq<string>) returns (r: Option<seq<string>>)
    ensures r == ListItems(field, fallback)
  {
    if field.FalsyField? {
      return Some([]);
    }
    var collector := new ListCollector();
    if field.ArrayField? {
      var ok := collector.Traverse(field.nodes);
      if !ok {
        return None;
      }
    }
    var items := collector.items;
    assert field.OtherField? ==> items == [];
    assert field.ArrayField? ==> items == Collected(ItemsWalk(field.nodes));
    if |items| == 0 {
      items := fallback;
    }
    r := Some(items);
  }

  /** A falsy field gives no items and never reaches the fallback; items
      found by the walk are the trimmed texts of the list items, in walk
      order, and then the fallback is not used. */
  lemma ListItemsCases(field: RichField, fallback: seq<string>)
    ensures field.FalsyField? ==> ListItems(field, fallback) == Some([])
    ensures field.ArrayField? && !HitsMissing(field.nodes) && Collected(ItemsWalk(field.nodes)) != [] ==>
      ListItems(field, fallback) == Some(Map(Filter(ItemsWalk(field.nodes), YieldsItem), ItemValue))
    ensures field.ArrayField? ==> (ListItems(field, fallback).None? <==> HitsMissing(field.nodes))
    ensures field.ArrayField? && !HitsMissing(field.nodes) && Collected(ItemsWalk(field.nodes)) == [] ==>
      ListItems(field, fallback) == Some(fallback)
  {
    if field.ArrayField? {
      CollectedIsFilterMap(ItemsWalk(field.nodes));
    }
  }

  // ---------------------------------------------------------------------
  // Documents and locations.

  datatype GeoPoint = GeoPoint(latitude: JsValue, longitude: JsValue)

  /** A location document, with the rendered text of its rich-text fields. */
  datatype LocationDoc = LocationDoc(
    id: string,
    uid: string,
    imageUrl: Option<string>,      // `feature_image?.url`
    imageAlt: Option<string>,      // `feature_image?.alt`
    titleText: string,             // `asText(title)`
    features: RichField,
    featuresFallback: seq<string>, // the HTML fallback's list for `features`
    location: Option<GeoPoint>,
    reviews: Option<int>,
    detailsHtml: string,           // `asHTML(details)`
    ownerText: string)             // `asText(owner_name)`

  datatype Coordinates = Coordinates(latitude: int, longitude: int)

  datatype Location = Location(
    id: string,
    slug: string,
    name: string,
    address: string,
    hours: string,
    rating: int,
    image: string,
    imageAlt: string,
    features: seq<string>,
    details: Option<string>,
    location: Option<Coordinates>,
    ownerName: Option<string>)

  const AddressUnavailable := "Address not available"
  const AllDayHours := "24/7"

  function OptText(o: Option<string>): string {
    if o.Some? then o.value else ""
  }

  /** Both coordinates, when the document has a point whose latitude and
      longitude are both numbers. */
  function Coords(doc: LocationDoc): (c: Option<Coordinates>)
    ensures c.Some? <==> doc.location.Some? && doc.location.value.latitude.Num? && doc.location.value.longitude.Num?
    ensures c.Some? ==> c.value == Coordinates(doc.location.value.latitude.n, doc.location.value.longitude.n)
  {
    if doc.location.Some? && doc.location.value.latitude.Num? && doc.location.value.longitude.Num? then
      Some(Coordinates(doc.location.value.latitude.n, doc.location.value.longitude.n))
    else None
  }

  /** `x.toFixed(4)` for an integer `x`. */
  function Fixed4(x: int): string {
    IntToString(x) + ".0000"
  }

  /** `transformLocation(doc)`: `None` when extracting the features throws. */
  function TransformLocation(doc: LocationDoc): (r: Option<Location>)
    ensures r.Some? <==> ListItems(doc.features, doc.featuresFallback).Some?
    ensures r.Some? ==> r.value.id == doc.id && r.value.slug == doc.uid && r.value.hours == AllDayHours
    ensures r.Some? ==> r.value.features == ListItems(doc.features, doc.featuresFallback).value
  {
    var features := ListItems(doc.features, doc.featuresFallback);
    if features.None? then None
    else
      var c := Coords(doc);
      Some(Location(
        doc.id,
        doc.uid,
        OrElse(doc.titleText, ""),
        if c.Some? then Fixed4(c.value.latitude) + ", " + Fixed4(c.value.longitude) else AddressUnavailable,
        AllDayHours,
        if doc.reviews.Some? then doc.reviews.value else 0,
        OrElse(OptText(doc.imageUrl), ""),
        OrElse(OrElse(OptText(doc.imageAlt), doc.titleText), ""),
        features.value,
        if doc.detailsHtml != "" then Some(doc.detailsHtml) else None,
        c,
        if doc.ownerText != "" then Some(doc.ownerText) else None))
  }

  /** The field defaults of a transformed location. */
  lemma TransformDefaults(doc: LocationDoc)
    ensures TransformLocation(doc).Some? <==> ListItems(doc.features, doc.featuresFallback).Some?
    ensures var r := TransformLocation(doc);
      r.Some? ==>
        && r.value.hours == "24/7"
        && r.value.rating == (if doc.reviews.Some? then doc.reviews.value else 0)
        && (doc.imageUrl.None? ==> r.value.image == "")
        && (r.value.ownerName.None? <==> doc.ownerText == "")
        && (r.value.ownerName.Some? ==> r.value.ownerName.value == doc.ownerText)
        && (r.value.details.None? <==> doc.detailsHtml == "")
        && r.value.name == doc.titleText
        && r.value.features == ListItems(doc.features, doc.featuresFallback).value
  {
  }

  /** The point and the address agree: the address is the fallback text
      exactly when there is no point, and the point is there exactly when
      both coordinates are numbers. */
  lemma LocationPresence(doc: LocationDoc)
    requires TransformLocation(doc).Some?
    ensures var r := TransformLocation(doc).value;
      && (r.location.Some? <==> doc.location.Some? && doc.location.value.latitude.Num? && doc.location.value.longitude.Num?)
      && (r.location.None? <==> r.address == AddressUnavailable)
      && (r.location.Some? ==>
            r.location.value.latitude == doc.location.value.latitude.n
            && r.location.value.longitude == doc.location.value.longitude.n)
  {
    var r := TransformLocation(doc).value;
    if r.location.Some? {
      var s := r.address;
      assert s == Fixed4(r.location.value.latitude) + ", " + Fixed4(r.location.value.longitude);
      assert s[|s| - 1] == '0';
      assert AddressUnavailable[|AddressUnavailable| - 1] == 'e';
    }
  }

  /** `response.map(transformLocation)`; a throw anywhere is caught and
      gives []. */
  function TransformAll(docs: seq<LocationDoc>): (r: Option<seq<Location>>)
    ensures r.Some? <==> forall i :: 0 <= i < |docs| ==> TransformLocation(docs[i]).Some?
    ensures r.Some? ==> |r.value| == |docs| && forall i :: 0 <= i < |docs| ==> r.value[i] == TransformLocation(docs[i]).value
  {
    if docs == [] then Some([])
    else
      var head := TransformLocation(docs[0]);
      var rest := TransformAll(docs[1..]);
      if head.None? || rest.None? then
        assert head.None? ==> !TransformLocation(docs[0]).Some?;
        None
      else
        Some([head.value] + rest.value)
  }

  /** `getAllLocations()`: `response` is `None` when the fetch fails.
      Every location is the transform of the document at its position;
      one bad document empties the whole list. */
  function AllLocations(response: Option<seq<LocationDoc>>): (r: seq<Location>)
    ensures response.None? ==> r == []
    ensures response.Some? && (forall i :: 0 <= i < |response.value| ==> TransformLocation(response.value[i]).Some?) ==>
      |r| == |response.value| && forall i :: 0 <= i < |r| ==> Some(r[i]) == TransformLocation(response.value[i])
    ensures response.Some? && (exists i :: 0 <= i < |response.value| && TransformLocation(response.value[i]).None?) ==> r == []
  {
    if response.None? then []
    else
      var all := TransformAll(response.value);
      if all.None? then [] else all.value
  }

  /** `getLocationBySlug(slug)`: `fetched` is the document found, or `None`
      when there is none or the fetch fails. */
  function LocationBySlug(fetched: Option<LocationDoc>): (r: Option<Location>)
    ensures fetched.None? ==> r.None?
    ensures fetched.Some? ==> r == TransformLocation(fetched.value)
    ensures r.Some? <==> fetched.Some? && ListItems(fetched.value.features, fetched.value.featuresFallback).Some?
    ensures r.Some? ==> r.value.id == fetched.value.id && r.value.slug == fetched.value.uid
  {
    if fetched.None? then None else TransformLocation(fetched.value)
  }
}
