/**
 * The signing string. A message's attributes are walked in declaration
 * order; absent values and values whose string form is empty are skipped,
 * and the remaining strings are joined with "|". A cart contributes the
 * join of its items' own signing strings.
 */
module Canonical {
  import opened Wrappers
  import opened Text

  const Sep := "|"

  /** A cart item, as stored (name and description already stripped). */
  datatype Item = Item(name: string, quantity: int, amount: int, description: string)

  /** A validated attribute value. */
  datatype Value = Str(s: string) | Int(i: int) | Bool(b: bool) | Cart(items: seq<Item>)

  /** The attribute names of an item, in declaration order. */
  const ItemNames: seq<string> := ["name", "quantity", "amount", "description"]

  function ItemAttributes(it: Item): map<string, Value> {
    map["name" := Str(it.name), "quantity" := Int(it.quantity),
        "amount" := Int(it.amount), "description" := Str(it.description)]
  }

  /** The strings that are not empty, in their original order. */
  function NonEmpty(xs: seq<string>): (r: seq<string>)
    ensures |r| <= |xs|
    ensures forall i :: 0 <= i < |r| ==> r[i] != ""
  {
    if xs == [] then []
    else NonEmpty(xs[..|xs| - 1]) + (if xs[|xs| - 1] == "" then [] else [xs[|xs| - 1]])
  }

  /** Item#to_s: the item's signing string over name, quantity, amount, description. */
  function ItemString(it: Item): string {
    Join(NonEmpty([it.name, IntToString(it.quantity), IntToString(it.amount), it.description]), Sep)
  }

  function ItemStrings(items: seq<Item>): (r: seq<string>)
    ensures |r| == |items| && forall i :: 0 <= i < |items| ==> r[i] == ItemString(items[i])
  {
    seq(|items|, i requires 0 <= i < |items| => ItemString(items[i]))
  }

  /** Cart#to_s. */
  function CartString(items: seq<Item>): string {
    if items == [] then "" else Join(NonEmpty(ItemStrings(items)), Sep)
  }

  /** value.to_s: strings as they are, integers in decimal, booleans as true/false. */
  function ToS(v: Value): string {
    match v
    case Str(s) => s
    case Int(i) => IntToString(i)
    case Bool(b) => if b then "true" else "false"
    case Cart(items) => CartString(items)
  }

  /** The attribute values in declaration order; None where the attribute is absent. */
  function Lookup(names: seq<string>, attrs: map<string, Value>): (vs: seq<Option<Value>>)
    ensures |vs| == |names|
    ensures forall i :: 0 <= i < |names| ==> vs[i] == if names[i] in attrs then Some(attrs[names[i]]) else None
  {
    seq(|names|, i requires 0 <= i < |names| => if names[i] in attrs then Some(attrs[names[i]]) else None)
  }

  /** The string forms of the present values, in order. */
  function Rendered(vs: seq<Option<Value>>): seq<string> {
    if vs == [] then []
    else Rendered(vs[..|vs| - 1]) + (match vs[|vs| - 1] case None => [] case Some(v) => [ToS(v)])
  }

  /** The segments a signing string is made of. */
  function Segments(vs: seq<Option<Value>>): seq<string> {
    NonEmpty(Rendered(vs))
  }

  /** SignaturePart#to_s, over the values in declaration order. */
  function SigningString(vs: seq<Option<Value>>): string {
    Join(Segments(vs), Sep)
  }

  /** The segment one value contributes: none if absent or empty. */
  function SegmentOf(o: Option<Value>): seq<string> {
    match o
    case None => []
    case Some(v) => if ToS(v) == "" then [] else [ToS(v)]
  }

  /** SignaturePart#to_s as the source runs it: one pass collecting the non-empty strings. */
  method AttributesToString(names: seq<string>, attrs: map<string, Value>) returns (s: string)
    ensures s == SigningString(Lookup(names, attrs))
  {
    var vs := Lookup(names, attrs);
    var arr: seq<string> := [];
    for i := 0 to |names|
      invariant arr == Segments(vs[..i])
    {
      if names[i] in attrs {
        var str := ToS(attrs[names[i]]);
        if str != "" {
          arr := arr + [str];
        }
      }
      SegmentsSnoc(vs[..i], vs[i]);
      assert vs[..i + 1] == vs[..i] + [vs[i]];
    }
    assert vs[..|names|] == vs;
    s := Join(arr, Sep);
  }

  /** Cart#to_s as the source runs it: "" for no items, else the non-empty item strings joined. */
  method CartToString(items: seq<Item>) returns (s: string)
    ensures s == CartString(items)
  {
    if items == [] {
      return "";
    }
    var arr: seq<string> := [];
    for i := 0 to |items|
      invariant arr == NonEmpty(ItemStrings(items)[..i])
    {
      var str := AttributesToString(ItemNames, ItemAttributes(items[i]));
      ItemStringIsSigningString(items[i]);
      if str != "" {
        arr := arr + [str];
      }
      assert ItemStrings(items)[..i + 1] == ItemStrings(items)[..i] + [ItemString(items[i])];
    }
    assert ItemStrings(items)[..|items|] == ItemStrings(items);
    s := Join(arr, Sep);
  }

  /** Appending one value appends its segment, if any. */
  lemma SegmentsSnoc(vs: seq<Option<Value>>, o: Option<Value>)
    ensures Segments(vs + [o]) == Segments(vs) + SegmentOf(o)
  {
    assert (vs + [o])[..|vs|] == vs;
    var r := match o case None => [] case Some(v) => [ToS(v)];
    assert Rendered(vs + [o]) == Rendered(vs) + r;
    NonEmptyAppend(Rendered(vs), r);
    assert r == [] || r[..0] == [];
  }

  lemma {:induction false} NonEmptyAppend(xs: seq<string>, ys: seq<string>)
    ensures NonEmpty(xs + ys) == NonEmpty(xs) + NonEmpty(ys)
    decreases |ys|
  {
    if ys == [] {
      assert xs + ys == xs;
    } else {
      var ys' := ys[..|ys| - 1];
      NonEmptyAppend(xs, ys');
      assert (xs + ys)[..|xs + ys| - 1] == xs + ys';
    }
  }

  lemma {:induction false} RenderedAppend(vs: seq<Option<Value>>, ws: seq<Option<Value>>)
    ensures Rendered(vs + ws) == Rendered(vs) + Rendered(ws)
    decreases |ws|
  {
    if ws == [] {
      assert vs + ws == vs;
    } else {
      var ws' := ws[..|ws| - 1];
      RenderedAppend(vs, ws');
      assert (vs + ws)[..|vs + ws| - 1] == vs + ws';
    }
  }

  /** Order is kept: the segments of two runs of values are the segments of each, in turn. */
  lemma SegmentsAppend(vs: seq<Option<Value>>, ws: seq<Option<Value>>)
    ensures Segments(vs + ws) == Segments(vs) + Segments(ws)
  {
    RenderedAppend(vs, ws);
    NonEmptyAppend(Rendered(vs), Rendered(ws));
  }

  /** An absent value, or one whose string is empty, leaves no trace in the signing string. */
  lemma SkippedValueInvisible(vs: seq<Option<Value>>, o: Option<Value>, ws: seq<Option<Value>>)
    requires o.None? || ToS(o.value) == ""
    ensures SigningString(vs + [o] + ws) == SigningString(vs + ws)
  {
    SegmentsAppend(vs + [o], ws);
    SegmentsSnoc(vs, o);
    assert SegmentOf(o) == [];
    assert Segments(vs + [o]) == Segments(vs);
    SegmentsAppend(vs, ws);
  }

  /** Item#to_s is SignaturePart#to_s over the item's four attributes. */
  lemma ItemStringIsSigningString(it: Item)
    ensures ItemString(it) == SigningString(Lookup(ItemNames, ItemAttributes(it)))
  {
    var vs := Lookup(ItemNames, ItemAttributes(it));
    assert vs == [Some(Str(it.name)), Some(Int(it.quantity)), Some(Int(it.amount)), Some(Str(it.description))];
    assert Rendered(vs[..1]) == [it.name] by { assert vs[..1][..0] == []; }
    assert Rendered(vs[..2]) == [it.name, IntToString(it.quantity)] by { assert vs[..2][..1] == vs[..1]; }
    assert Rendered(vs[..3]) == [it.name, IntToString(it.quantity), IntToString(it.amount)] by { assert vs[..3][..2] == vs[..2]; }
    assert vs[..4][..3] == vs[..3] && vs[..4] == vs;
    assert Rendered(vs) == [it.name, IntToString(it.quantity), IntToString(it.amount), it.description];
  }

  /** Every item has a non-empty string: its quantity and amount always render. */
  lemma ItemStringNonEmpty(it: Item)
    ensures ItemString(it) != ""
  {
    var xs := [it.name, IntToString(it.quantity), IntToString(it.amount), it.description];
    assert NonEmpty(xs) != [] by {
      NonEmptyAppend(xs[..2], xs[2..]);
      NonEmptyAppend([xs[0]], [xs[1]]);
      assert xs[..2] == [xs[0]] + [xs[1]];
      assert xs[..2] + xs[2..] == xs;
      assert NonEmpty([xs[1]]) == [xs[1]];
    }
    JoinNonEmpty(NonEmpty(xs));
  }

  /** Joining non-empty strings, at least one of them, gives a non-empty string. */
  lemma JoinNonEmpty(xs: seq<string>)
    requires xs != [] && xs[0] != ""
    ensures Join(xs, Sep) != ""
  {
  }

  /** No item is ever skipped in a cart's string: the cart of n items has n segments' worth. */
  lemma CartStringItems(items: seq<Item>)
    ensures CartString(items) == Join(ItemStrings(items), Sep)
    ensures CartString(items) == "" <==> items == []
  {
    forall i | 0 <= i < |items| ensures ItemStrings(items)[i] != "" {
      ItemStringNonEmpty(items[i]);
    }
    NonEmptyKeepsAll(ItemStrings(items));
    if items != [] {
      ItemStringNonEmpty(items[0]);
      JoinNonEmpty(ItemStrings(items));
    }
  }

  lemma {:induction false} NonEmptyKeepsAll(xs: seq<string>)
    requires forall i :: 0 <= i < |xs| ==> xs[i] != ""
    ensures NonEmpty(xs) == xs
  {
    if xs != [] {
      NonEmptyKeepsAll(xs[..|xs| - 1]);
    }
  }

  /** Join over a list with one element replaced by the join of a non-empty list inlines it. */
  lemma JoinFlatten(xs: seq<string>, ys: seq<string>, zs: seq<string>)
    requires ys != []
    ensures Join(xs + [Join(ys, Sep)] + zs, Sep) == Join(xs + ys + zs, Sep)
  {
    var mid := [Join(ys, Sep)];
    if xs != [] && zs != [] {
      JoinAppend(xs + mid, zs, Sep);
      JoinAppend(xs, mid, Sep);
      JoinAppend(xs + ys, zs, Sep);
      JoinAppend(xs, ys, Sep);
    } else if xs != [] {
      assert xs + mid + zs == xs + mid;
      assert xs + ys + zs == xs + ys;
      JoinAppend(xs, mid, Sep);
      JoinAppend(xs, ys, Sep);
    } else if zs != [] {
      assert xs + mid + zs == mid + zs;
      assert xs + ys + zs == ys + zs;
      JoinAppend(mid, zs, Sep);
      JoinAppend(ys, zs, Sep);
    } else {
      assert xs + mid + zs == mid;
      assert xs + ys + zs == ys;
    }
  }

  /**
   * A cart between other values reads as if its items were attributes of
   * the enclosing message: an empty cart adds nothing, a non-empty one
   * adds one segment per item.
   */
  lemma CartInlined(vs: seq<Option<Value>>, items: seq<Item>, ws: seq<Option<Value>>)
    ensures SigningString(vs + [Some(Cart(items))] + ws)
         == Join(Segments(vs) + ItemStrings(items) + Segments(ws), Sep)
  {
    var o := Some(Cart(items));
    SegmentsAppend(vs + [o], ws);
    SegmentsSnoc(vs, o);
    CartStringItems(items);
    if items == [] {
      assert Segments(vs) + ItemStrings(items) + Segments(ws) == Segments(vs) + Segments(ws);
    } else {
      assert SegmentOf(o) == [Join(ItemStrings(items), Sep)];
      JoinFlatten(Segments(vs), ItemStrings(items), Segments(ws));
    }
  }

  /** What precedes a segment in a join: the earlier segments and a separator. */
  function Before(xs: seq<string>): string {
    if xs == [] then "" else Join(xs, Sep) + Sep
  }

  /** What follows a segment in a join: a separator and the later segments. */
  function After(zs: seq<string>): string {
    if zs == [] then "" else Sep + Join(zs, Sep)
  }

  lemma JoinAround(xs: seq<string>, y: string, zs: seq<string>)
    ensures Join(xs + [y] + zs, Sep) == Before(xs) + y + After(zs)
  {
    if xs != [] {
      JoinAppend(xs, [y] + zs, Sep);
      assert xs + [y] + zs == xs + ([y] + zs);
    }
    if zs != [] {
      JoinAppend([y], zs, Sep);
    }
  }

  lemma JoinWithoutShorter(xs: seq<string>, zs: seq<string>)
    ensures |Join(xs + zs, Sep)| <= |Before(xs)| + |After(zs)|
  {
    if xs != [] && zs != [] {
      JoinAppend(xs, zs, Sep);
    } else if xs != [] {
      assert xs + zs == xs;
    } else {
      assert xs + zs == zs;
    }
  }

  /** Two joins that differ in one segment differ. */
  lemma ReplacedSegmentDiffers(p: seq<string>, x: string, y: string, s: seq<string>)
    requires x != y
    ensures Join(p + [x] + s, Sep) != Join(p + [y] + s, Sep)
  {
    JoinAround(p, x, s);
    JoinAround(p, y, s);
    var s1, s2 := Join(p + [x] + s, Sep), Join(p + [y] + s, Sep);
    var n := |Before(p)|;
    if |x| == |y| {
      assert s1[n..n + |x|] == x;
      assert s2[n..n + |y|] == y;
    } else {
      assert |s1| != |s2|;
    }
  }

  /** A join with one more non-empty segment is longer, hence different. */
  lemma DroppedSegmentDiffers(p: seq<string>, x: string, s: seq<string>)
    requires x != ""
    ensures Join(p + [x] + s, Sep) != Join(p + s, Sep)
  {
    JoinAround(p, x, s);
    JoinWithoutShorter(p, s);
  }

  /**
   * Changing what one attribute contributes changes the signing string:
   * replacing, adding or removing a segment cannot be hidden by the join.
   */
  lemma ChangedValueChangesString(vs: seq<Option<Value>>, o1: Option<Value>, o2: Option<Value>, ws: seq<Option<Value>>)
    requires SegmentOf(o1) != SegmentOf(o2)
    ensures SigningString(vs + [o1] + ws) != SigningString(vs + [o2] + ws)
  {
    var p, s := Segments(vs), Segments(ws);
    SegmentsAppend(vs + [o1], ws);
    SegmentsSnoc(vs, o1);
    SegmentsAppend(vs + [o2], ws);
    SegmentsSnoc(vs, o2);
    var a, b := SegmentOf(o1), SegmentOf(o2);
    if a != [] && b != [] {
      ReplacedSegmentDiffers(p, a[0], b[0], s);
    } else if a != [] {
      assert p + b + s == p + s;
      DroppedSegmentDiffers(p, a[0], s);
    } else {
      assert p + a + s == p + s;
      DroppedSegmentDiffers(p, b[0], s);
    }
  }
}
