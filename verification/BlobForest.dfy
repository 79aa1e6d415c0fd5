/** Kill blob forests: their limits, the tags that spell them, and the stack that builds
    them tag by tag.
  */
module BlobForest {
  import opened BlobText
  import opened BlobScanner
  import opened BlobLayout
  import opened BlobReading
  import opened BlobWriting
  import opened BlobPrinter
  import opened Options

  const MAX_BLOB_BYTES: nat := 1_000_000
  const MAX_NODES: nat := 10_000
  const MAX_DEPTH: nat := 32

  datatype Node = Node(name: string, attrs: seq<Attribute>, children: seq<Node>)

  /** An element whose closing tag has not been read yet, with its children so far. */
  datatype Frame = Frame(name: string, attrs: seq<Attribute>, children: seq<Node>)

  datatype Building = Building(stack: seq<Frame>, roots: seq<Node>, nodes: nat)

  const START := Building([], [], 0)

  /** Appends to the innermost open element, or to the roots. */
  function Add(b: Building, forest: seq<Node>): Building
  {
    if b.stack == [] then b.(roots := b.roots + forest)
    else
      var top := b.stack[|b.stack| - 1];
      b.(stack := b.stack[..|b.stack| - 1] + [top.(children := top.children + forest)])
  }

  /** What one tag does in the loop of `_parse_forest`. */
  function Apply(b: Building, tag: Tag): Result<Building, Error>
  {
    if tag.closing then
      if b.stack == [] || b.stack[|b.stack| - 1].name != tag.name then Err(ClosingMismatch)
      else
        var top := b.stack[|b.stack| - 1];
        Ok(Add(b.(stack := b.stack[..|b.stack| - 1]), [Node(top.name, top.attrs, top.children)]))
    else if b.nodes >= MAX_NODES then Err(NodeLimit)
    else if |b.stack| >= MAX_DEPTH then Err(DepthLimit)
    else if tag.selfClosing then Ok(Add(b.(nodes := b.nodes + 1), [Node(tag.name, tag.attrs, [])]))
    else Ok(b.(nodes := b.nodes + 1, stack := b.stack + [Frame(tag.name, tag.attrs, [])]))
  }

  function Finish(b: Building): Result<seq<Node>, Error>
  {
    if b.stack != [] || b.roots == [] then Err(RootIncomplete) else Ok(b.roots)
  }

  /** The loop of `_parse_forest` on the text that is left. */
  function ParseFrom(s: string, b: Building): Result<seq<Node>, Error>
    decreases |s|
  {
    match NextTag(s)
    case Err(e) => Err(e)
    case Ok(Finished) => Finish(b)
    case Ok(Found(tag, rest)) =>
      match Apply(b, tag)
      case Err(e) => Err(e)
      case Ok(next) => ParseFrom(rest, next)
  }

  predicate Readable(s: string)
  {
    Utf8Length(s) <= MAX_BLOB_BYTES && !HasControl(s)
  }

  /** `_parse_forest`. */
  function Parse(s: string): Result<seq<Node>, Error>
  {
    if Utf8Length(s) > MAX_BLOB_BYTES then Err(SizeLimit)
    else if HasControl(s) then Err(ControlCharacter)
    else ParseFrom(s, START)
  }

  // ----- Limits -----

  function Count(forest: seq<Node>): nat
  {
    if forest == [] then 0 else 1 + Count(forest[0].children) + Count(forest[1..])
  }

  function Height(forest: seq<Node>): nat
  {
    if forest == [] then 0
    else
      var first := 1 + Height(forest[0].children);
      var rest := Height(forest[1..]);
      if first >= rest then first else rest
  }

  ghost predicate Legal(forest: seq<Node>)
  {
    forest != [] ==>
      IsName(forest[0].name) && LegalAttrs(forest[0].attrs) && Legal(forest[0].children) && Legal(forest[1..])
  }

  ghost predicate QuotableForest(forest: seq<Node>)
  {
    forest != [] ==>
      QuotableAttrs(forest[0].attrs) && QuotableForest(forest[0].children) && QuotableForest(forest[1..])
  }

  /** The limits of the parser. */
  ghost predicate WithinLimits(forest: seq<Node>)
  {
    forest != [] && Count(forest) <= MAX_NODES && Height(forest) <= MAX_DEPTH && Legal(forest)
  }

  // ----- The tags that spell a forest -----

  function OpenTag(name: string, attrs: seq<Attribute>): Tag
  {
    Tag(false, name, attrs, false)
  }

  function CloseTag(name: string): Tag
  {
    Tag(true, name, [], false)
  }

  /** Every element as an opening and a closing tag. */
  function Spelled(forest: seq<Node>): seq<Tag>
  {
    if forest == [] then []
    else
      [OpenTag(forest[0].name, forest[0].attrs)] + Spelled(forest[0].children) + [CloseTag(forest[0].name)]
      + Spelled(forest[1..])
  }

  /** The canonical tags: an element without children is self-closing. */
  function Tags(forest: seq<Node>): seq<Tag>
  {
    if forest == [] then []
    else if forest[0].children == [] then
      [Tag(false, forest[0].name, forest[0].attrs, true)] + Tags(forest[1..])
    else
      [OpenTag(forest[0].name, forest[0].attrs)] + Tags(forest[0].children) + [CloseTag(forest[0].name)]
      + Tags(forest[1..])
  }

  function Expand(tags: seq<Tag>): seq<Tag>
  {
    if tags == [] then []
    else
      var tag := tags[0];
      (if !tag.closing && tag.selfClosing then [OpenTag(tag.name, tag.attrs), CloseTag(tag.name)] else [tag])
      + Expand(tags[1..])
  }

  /** The canonical form of a forest. */
  function Print(forest: seq<Node>): string
  {
    Text(CanonicalTags(Tags(forest)), "")
  }

  /** All the tags of a text. */
  function AllTags(s: string): Result<seq<Tag>, Error>
    decreases |s|
  {
    match NextTag(s)
    case Err(e) => Err(e)
    case Ok(Finished) => Ok([])
    case Ok(Found(tag, rest)) =>
      match AllTags(rest)
      case Err(e) => Err(e)
      case Ok(more) => Ok([tag] + more)
  }

  function ApplyAll(b: Building, tags: seq<Tag>): Result<Building, Error>
    decreases |tags|
  {
    if tags == [] then Ok(b)
    else
      match Apply(b, tags[0])
      case Err(e) => Err(e)
      case Ok(next) => ApplyAll(next, tags[1..])
  }

  // ----- Reading the tags and building are independent -----

  /** A text is accepted exactly if all its tags can be read and applied. */
  lemma {:induction false} ParseAppliesTags(s: string, b: Building)
    ensures ParseFrom(s, b).Ok? <==>
              AllTags(s).Ok? && ApplyAll(b, AllTags(s).value).Ok? && Finish(ApplyAll(b, AllTags(s).value).value).Ok?
    ensures ParseFrom(s, b).Ok? ==> ParseFrom(s, b) == Finish(ApplyAll(b, AllTags(s).value).value)
    decreases |s|
  {
    var next := NextTag(s);
    if next.Ok? && next.value.Found? {
      var tag, rest := next.value.tag, next.value.rest;
      if Apply(b, tag).Ok? {
        ParseAppliesTags(rest, Apply(b, tag).value);
      }
      if AllTags(rest).Ok? {
        assert ([tag] + AllTags(rest).value)[1..] == AllTags(rest).value;
      }
    }
  }

  lemma {:induction false} AllTagsAreLegal(s: string)
    requires AllTags(s).Ok?
    ensures forall i :: 0 <= i < |AllTags(s).value| ==> LegalTag(AllTags(s).value[i])
    decreases |s|
  {
    var next := NextTag(s).value;
    if next.Found? {
      TagsAreLegal(s);
      AllTagsAreLegal(next.rest);
    }
  }

  ghost predicate Writable(tags: seq<Tag>)
  {
    forall i :: 0 <= i < |tags| ==> LegalTag(tags[i]) && QuotableAttrs(tags[i].attrs)
  }

  lemma WritableTail(tags: seq<Tag>)
    requires Writable(tags) && tags != []
    ensures LegalTag(tags[0]) && QuotableAttrs(tags[0].attrs) && Writable(tags[1..])
  {
    hide LegalTag, QuotableAttrs;
  }

  lemma NothingIsFinished()
    ensures NextTag("") == Ok(Finished)
  {
  }

  lemma GoodTail(l: seq<Placed>, end: string)
    requires Good(l, end) && l != []
    ensures Blank(l[0].gap) && GoodTag(l[0].tag) && Good(l[1..], end)
  {
  }

  /** The tags of every layout are read back. */
  lemma {:induction false} LayoutRead(l: seq<Placed>, end: string)
    requires Good(l, end)
    ensures AllTags(Text(l, end)) == Ok(TagsOf(l))
    decreases |l|
  {
    hide NextTag, GoodTag, TagText, TagOf, Blank, Good;
    if l == [] {
      OnlyEnd(end);
      EndRead(end);
    } else {
      GoodTail(l, end);
      TagRead(l[0].gap, l[0].tag, Text(l[1..], end));
      LayoutRead(l[1..], end);
    }
  }

  lemma OnlyEnd(end: string)
    requires Good([], end)
    ensures Blank(end)
  {
  }

  /** Every text whose tags can be read has a layout: nothing but tags and white space. */
  lemma {:induction false} LayoutWritten(s: string) returns (l: seq<Placed>, end: string)
    requires AllTags(s).Ok?
    ensures Good(l, end) && Text(l, end) == s && TagsOf(l) == AllTags(s).value
    decreases |s|
  {
    hide NextTag, GoodTag, TagText, TagOf, Blank;
    var next := NextTag(s).value;
    if next.Finished? {
      EndWritten(s);
      l, end := [], s;
    } else {
      var first := TagWritten(s);
      var rest: seq<Placed>;
      rest, end := LayoutWritten(next.rest);
      l := [first] + rest;
      assert l[1..] == rest;
    }
  }

  lemma {:induction false} ApplyConcat(b: Building, s: seq<Tag>, t: seq<Tag>)
    ensures ApplyAll(b, s).Ok? ==> ApplyAll(b, s + t) == ApplyAll(ApplyAll(b, s).value, t)
    ensures ApplyAll(b, s).Err? ==> ApplyAll(b, s + t) == ApplyAll(b, s)
    decreases |s|
  {
    if s == [] {
      assert s + t == t;
    } else {
      assert (s + t)[1..] == s[1..] + t;
      if Apply(b, s[0]).Ok? {
        ApplyConcat(Apply(b, s[0]).value, s[1..], t);
      }
    }
  }

  /** A self-closing tag does what an opening and a closing tag do. */
  lemma {:induction false} ExpandedTagsApply(b: Building, tags: seq<Tag>)
    ensures ApplyAll(b, Expand(tags)) == ApplyAll(b, tags)
    decreases |tags|
  {
    if tags != [] {
      var tag := tags[0];
      var first := if !tag.closing && tag.selfClosing then [OpenTag(tag.name, tag.attrs), CloseTag(tag.name)]
                   else [tag];
      SameEffect(b, tag);
      ApplyConcat(b, first, Expand(tags[1..]));
      if Apply(b, tag).Ok? {
        ExpandedTagsApply(Apply(b, tag).value, tags[1..]);
      }
    }
  }

  lemma SameEffect(b: Building, tag: Tag)
    ensures !tag.closing && tag.selfClosing ==>
            ApplyAll(b, [OpenTag(tag.name, tag.attrs), CloseTag(tag.name)]) == Apply(b, tag)
    ensures ApplyAll(b, [tag]) == Apply(b, tag)
  {
    if !tag.closing && tag.selfClosing {
      var open, close := OpenTag(tag.name, tag.attrs), CloseTag(tag.name);
      assert [open, close][1..] == [close];
      var after := Apply(b, open);
      if after.Ok? {
        assert after.value.stack[..|b.stack|] == b.stack;
        assert after.value.(stack := b.stack) == b.(nodes := b.nodes + 1);
        assert Apply(after.value, close) == Apply(b, tag);
        assert ApplyAll(after.value, [close]) == Apply(after.value, close) by {
          assert [close][1..] == [];
        }
      }
    }
  }

  lemma {:induction false} TagsExpand(forest: seq<Node>)
    ensures Expand(Tags(forest)) == Spelled(forest)
  {
    if forest != [] {
      var n := forest[0];
      TagsExpand(n.children);
      TagsExpand(forest[1..]);
      if n.children == [] {
        var tag := Tag(false, n.name, n.attrs, true);
        ExpandConcat([tag], Tags(forest[1..]));
        assert [tag][1..] == [];
      } else {
        var open, close := [OpenTag(n.name, n.attrs)], [CloseTag(n.name)];
        assert open[1..] == [] && close[1..] == [];
        ExpandConcat(open, Tags(n.children));
        ExpandConcat(open + Tags(n.children), close);
        ExpandConcat(open + Tags(n.children) + close, Tags(forest[1..]));
      }
    }
  }

  lemma {:induction false} ExpandConcat(s: seq<Tag>, t: seq<Tag>)
    ensures Expand(s + t) == Expand(s) + Expand(t)
    decreases |s|
  {
    if s == [] {
      assert s + t == t;
    } else {
      assert (s + t)[1..] == s[1..] + t;
      ExpandConcat(s[1..], t);
    }
  }
}
