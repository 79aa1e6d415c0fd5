/** What the parser accepts. */
module BlobTheorems {
  // Which texts are accepted as kill blobs, and as which forests.
  import opened BlobText
  import opened BlobScanner
  import opened BlobLayout
  import opened BlobPrinter
  import opened BlobForest
  import opened Options

  // ----- A forest within the limits is built from its tags -----

  predicate Fits(b: Building, forest: seq<Node>)
  {
    b.nodes + Count(forest) <= MAX_NODES && |b.stack| + Height(forest) <= MAX_DEPTH
  }

  lemma AddConcat(b: Building, f: seq<Node>, g: seq<Node>)
    ensures Add(Add(b, f), g) == Add(b, f + g)
  {
    if b.stack == [] {
      assert b.roots + f + g == b.roots + (f + g);
    } else {
      var top := b.stack[|b.stack| - 1];
      var after := Add(b, f);
      assert after.stack[..|b.stack| - 1] == b.stack[..|b.stack| - 1];
      assert top.children + f + g == top.children + (f + g);
    }
  }

  lemma AddNothing(b: Building)
    ensures Add(b, []) == b
  {
    if b.stack == [] {
      assert b.roots + [] == b.roots;
    } else {
      var top := b.stack[|b.stack| - 1];
      assert top.children + [] == top.children;
      assert b.stack[..|b.stack| - 1] + [top] == b.stack;
    }
  }

  lemma SpelledSplit(forest: seq<Node>)
    ensures Spelled([]) == []
    ensures forest != [] ==>
      Spelled(forest) == [OpenTag(forest[0].name, forest[0].attrs)] + Spelled(forest[0].children)
          + [CloseTag(forest[0].name)]
                         + Spelled(forest[1..])
  {
  }

  lemma AddToRoots(b: Building, forest: seq<Node>)
    requires b.stack == []
    ensures Add(b, forest) == b.(roots := b.roots + forest)
  {
  }

  lemma FitsSplit(b: Building, forest: seq<Node>)
    requires Fits(b, forest) && forest != []
    ensures Fits(b, [forest[0]])
    ensures Fits(Add(b, [forest[0]]).(nodes := b.nodes + 1 + Count(forest[0].children)), forest[1..])
    ensures Count(forest) == 1 + Count(forest[0].children) + Count(forest[1..])
  {
    OneMeasures(forest[0]);
  }

  lemma JoinBuilds(b: Building, n: Node, rest: seq<Node>, element: seq<Tag>, tail: seq<Tag>, m: nat, total: nat)
    requires ApplyAll(b, element) == Ok(Add(b, [n]).(nodes := m))
    requires ApplyAll(Add(b, [n]).(nodes := m), tail) == Ok(Add(Add(b, [n]).(nodes := m), rest).(nodes := total))
    ensures ApplyAll(b, element + tail) == Ok(Add(b, [n] + rest).(nodes := total))
  {
    hide Add, ApplyAll;
    ApplyConcat(b, element, tail);
    AddCounts(Add(b, [n]), rest, m);
    AddConcat(b, [n], rest);
  }

  /** Reading the tags of a forest appends it, if it fits. */
  lemma {:induction false} SpelledBuilds(b: Building, forest: seq<Node>)
    requires Fits(b, forest)
    ensures ApplyAll(b, Spelled(forest)) == Ok(Add(b, forest).(nodes := b.nodes + Count(forest)))
    decreases forest
  {
    if forest == [] {
      AddNothing(b);
    } else {
      hide Add, ApplyAll, Spelled, Count, Fits;
      var n, rest := forest[0], forest[1..];
      var element := [OpenTag(n.name, n.attrs)] + Spelled(n.children) + [CloseTag(n.name)];
      FitsSplit(b, forest);
      ElementBuilds(b, n);
      var m := b.nodes + 1 + Count(n.children);
      SpelledBuilds(Add(b, [n]).(nodes := m), rest);
      JoinBuilds(b, n, rest, element, Spelled(rest), m, b.nodes + Count(forest));
      SpelledSplit(forest);
      assert [n] + rest == forest;
    }
  }

  lemma AddCounts(b: Building, forest: seq<Node>, nodes: nat)
    ensures Add(b.(nodes := nodes), forest) == Add(b, forest).(nodes := nodes)
  {
  }

  lemma OneMeasures(n: Node)
    ensures Count([n]) == 1 + Count(n.children) && Height([n]) == 1 + Height(n.children)
    ensures Legal([n]) <==> IsName(n.name) && LegalAttrs(n.attrs) && Legal(n.children)
  {
    assert [n][1..] == [] && [n][0] == n;
  }

  lemma OpenStep(b: Building, n: Node)
    requires b.nodes < MAX_NODES && |b.stack| < MAX_DEPTH
    ensures ApplyAll(b, [OpenTag(n.name, n.attrs)]) == Ok(Inside(b, n, [], b.nodes + 1))
  {
    assert [OpenTag(n.name, n.attrs)][1..] == [];
  }

  /** The state within an element, once those children have been read. */
  function Inside(b: Building, n: Node, children: seq<Node>, nodes: nat): Building
  {
    b.(nodes := nodes, stack := b.stack + [Frame(n.name, n.attrs, children)])
  }

  lemma FillStep(b: Building, n: Node, nodes: nat)
    ensures Add(Inside(b, n, [], nodes), n.children) == Inside(b, n, n.children, nodes)
  {
    assert Inside(b, n, [], nodes).stack[..|b.stack|] == b.stack && [] + n.children == n.children;
  }

  lemma CloseStep(b: Building, n: Node, nodes: nat)
    ensures ApplyAll(Inside(b, n, n.children, nodes), [CloseTag(n.name)]) == Ok(Add(b, [n]).(nodes := nodes))
  {
    assert [CloseTag(n.name)][1..] == [] && Inside(b, n, n.children, nodes).stack[..|b.stack|] == b.stack;
    assert Inside(b, n, n.children, nodes).(stack := b.stack) == b.(nodes := nodes);
    AddCounts(b, [n], nodes);
  }

  lemma {:induction false} ElementBuilds(b: Building, n: Node)
    requires Fits(b, [n])
    ensures ApplyAll(b, [OpenTag(n.name, n.attrs)] + Spelled(n.children) + [CloseTag(n.name)])
            == Ok(Add(b, [n]).(nodes := b.nodes + 1 + Count(n.children)))
    decreases n, 0
  {
    hide Add, ApplyAll;
    OneMeasures(n);
    var open, close := OpenTag(n.name, n.attrs), CloseTag(n.name);
    var nodes := b.nodes + 1 + Count(n.children);
    OpenStep(b, n);
    SpelledBuilds(Inside(b, n, [], b.nodes + 1), n.children);
    FillStep(b, n, b.nodes + 1);
    CloseStep(b, n, nodes);
    ApplyConcat(b, [open], Spelled(n.children));
    ApplyConcat(b, [open] + Spelled(n.children), [close]);
  }

  // ----- What has been built is what the tags spell -----

  /** The tags of the elements that are still open. */
  function Pending(stack: seq<Frame>): seq<Tag>
  {
    if stack == [] then []
    else
      var top := stack[|stack| - 1];
      Pending(stack[..|stack| - 1]) + [OpenTag(top.name, top.attrs)] + Spelled(top.children)
  }

  /** All the tags read so far, with self-closing ones expanded. */
  function Written(b: Building): seq<Tag>
  {
    Spelled(b.roots) + Pending(b.stack)
  }

  lemma {:induction false} SpelledConcat(f: seq<Node>, g: seq<Node>)
    ensures Spelled(f + g) == Spelled(f) + Spelled(g)
    decreases |f|
  {
    if f == [] {
      assert f + g == g;
    } else {
      assert (f + g)[1..] == f[1..] + g;
      SpelledConcat(f[1..], g);
    }
  }

  /** The innermost open element, and what is around it. */
  lemma Innermost(b: Building, forest: seq<Node>) returns (around: seq<Frame>, top: Frame)
    requires b.stack != []
    ensures b.stack == around + [top] && |around| == |b.stack| - 1
    ensures Add(b, forest) == b.(stack := around + [top.(children := top.children + forest)])
  {
    around, top := b.stack[..|b.stack| - 1], b.stack[|b.stack| - 1];
  }

  lemma PendingPush(stack: seq<Frame>, frame: Frame)
    ensures Pending(stack + [frame]) == Pending(stack) + [OpenTag(frame.name, frame.attrs)] + Spelled(frame.children)
    ensures PendingCount(stack + [frame]) == PendingCount(stack) + 1 + Count(frame.children)
    ensures PendingLegal(stack + [frame]) <==>
              && PendingLegal(stack) && IsName(frame.name) && LegalAttrs(frame.attrs) && Legal(frame.children)
              && |stack| + 1 + Height(frame.children) <= MAX_DEPTH
  {
    assert (stack + [frame])[..|stack|] == stack;
  }

  lemma NothingPending()
    ensures Pending([]) == []
  {
  }

  lemma AddSpells(b: Building, forest: seq<Node>)
    ensures Written(Add(b, forest)) == Written(b) + Spelled(forest)
  {
    hide Spelled, Add, Pending;
    if b.stack == [] {
      NothingPending();
      AddToRoots(b, forest);
      SpelledConcat(b.roots, forest);
    } else {
      var around, top := Innermost(b, forest);
      SpelledConcat(top.children, forest);
      PendingPush(around, top);
      PendingPush(around, top.(children := top.children + forest));
    }
  }

  lemma SpelledOne(n: Node)
    ensures Spelled([n]) == [OpenTag(n.name, n.attrs)] + Spelled(n.children) + [CloseTag(n.name)]
  {
    assert [n][1..] == [];
  }

  lemma ClosingSpells(b: Building, tag: Tag)
    requires LegalTag(tag) && tag.closing && Apply(b, tag).Ok?
    ensures Written(Apply(b, tag).value) == Written(b) + [tag]
  {
    hide LegalAttrs, Add, Pending, Spelled;
    var around, top := Innermost(b, []);
    var n := Node(top.name, top.attrs, top.children);
    var start := [OpenTag(top.name, top.attrs)] + Spelled(top.children);
    AddSpells(b.(stack := around), [n]);
    SpelledOne(n);
    PendingPush(around, top);
    assert Written(b) == Written(b.(stack := around)) + start;
    assert Spelled([n]) == start + [tag];
  }

  lemma OpeningSpells(b: Building, tag: Tag)
    requires LegalTag(tag) && !tag.closing && Apply(b, tag).Ok?
    ensures Written(Apply(b, tag).value)
            == Written(b) + if tag.selfClosing then [OpenTag(tag.name, tag.attrs), CloseTag(tag.name)] else [tag]
  {
    hide LegalAttrs, Add, Pending, Spelled;
    SpelledSplit([]);
    if tag.selfClosing {
      var n := Node(tag.name, tag.attrs, []);
      AddSpells(b.(nodes := b.nodes + 1), [n]);
      SpelledOne(n);
    } else {
      PendingPush(b.stack, Frame(tag.name, tag.attrs, []));
    }
  }

  lemma ApplySpells(b: Building, tag: Tag)
    requires LegalTag(tag) && Apply(b, tag).Ok?
    ensures Written(Apply(b, tag).value) == Written(b) + Expand([tag])
  {
    hide LegalTag, Written, Apply;
    assert [tag][1..] == [] && Expand([]) == [];
    if tag.closing {
      ClosingSpells(b, tag);
    } else {
      OpeningSpells(b, tag);
    }
  }

  lemma {:induction false} ApplyAllSpells(b: Building, tags: seq<Tag>)
    requires (forall i :: 0 <= i < |tags| ==> LegalTag(tags[i])) && ApplyAll(b, tags).Ok?
    ensures Written(ApplyAll(b, tags).value) == Written(b) + Expand(tags)
    decreases |tags|
  {
    hide LegalTag, Apply, Written;
    if tags != [] {
      ApplySpells(b, tags[0]);
      var next := Apply(b, tags[0]).value;
      ApplyAllSpells(next, tags[1..]);
      ExpandConcat([tags[0]], tags[1..]);
      assert [tags[0]] + tags[1..] == tags;
    }
  }

  // ----- What has been built is within the limits -----

  lemma {:induction false} ConcatMeasures(f: seq<Node>, g: seq<Node>)
    ensures Count(f + g) == Count(f) + Count(g)
    ensures Height(f + g) == if Height(f) >= Height(g) then Height(f) else Height(g)
    ensures Legal(f) && Legal(g) ==> Legal(f + g)
    decreases |f|
  {
    if f == [] {
      assert f + g == g;
    } else {
      assert (f + g)[1..] == f[1..] + g;
      ConcatMeasures(f[1..], g);
    }
  }

  function PendingCount(stack: seq<Frame>): nat
  {
    if stack == [] then 0
    else PendingCount(stack[..|stack| - 1]) + 1 + Count(stack[|stack| - 1].children)
  }

  ghost predicate PendingLegal(stack: seq<Frame>)
  {
    stack != [] ==>
      var top := stack[|stack| - 1];
      && PendingLegal(stack[..|stack| - 1])
      && IsName(top.name) && LegalAttrs(top.attrs) && Legal(top.children) && |stack| + Height(top.children) <= MAX_DEPTH
  }

  ghost predicate Growing(b: Building)
  {
    && Count(b.roots) + PendingCount(b.stack) == b.nodes <= MAX_NODES
    && Legal(b.roots) && Height(b.roots) <= MAX_DEPTH && PendingLegal(b.stack)
  }

  lemma AddGrows(b: Building, n: Node)
    requires Legal(b.roots) && Height(b.roots) <= MAX_DEPTH && PendingLegal(b.stack)
    requires b.nodes <= MAX_NODES && b.nodes == Count(b.roots) + PendingCount(b.stack) + Count([n])
    requires Legal([n]) && |b.stack| + Height([n]) <= MAX_DEPTH
    ensures Growing(Add(b, [n]))
  {
    hide LegalAttrs, Add, PendingLegal, PendingCount, Legal, Height, Count;
    if b.stack == [] {
      AddToRoots(b, [n]);
      ConcatMeasures(b.roots, [n]);
    } else {
      var around, top := Innermost(b, [n]);
      ConcatMeasures(top.children, [n]);
      PendingPush(around, top);
      PendingPush(around, top.(children := top.children + [n]));
    }
  }

  lemma NothingMeasures()
    ensures Legal([]) && Height([]) == 0 == Count([])
  {
  }

  lemma ApplyGrows(b: Building, tag: Tag)
    requires Growing(b) && LegalTag(tag) && Apply(b, tag).Ok?
    ensures Growing(Apply(b, tag).value)
  {
    hide LegalAttrs, Add, PendingLegal, PendingCount, Legal, Height, Count;
    NothingMeasures();
    if tag.closing {
      var around, top := Innermost(b, []);
      var n := Node(top.name, top.attrs, top.children);
      PendingPush(around, top);
      OneMeasures(n);
      AddGrows(b.(stack := around), n);
    } else if tag.selfClosing {
      var n := Node(tag.name, tag.attrs, []);
      OneMeasures(n);
      AddGrows(b.(nodes := b.nodes + 1), n);
    } else {
      PendingPush(b.stack, Frame(tag.name, tag.attrs, []));
    }
  }

  lemma {:induction false} ApplyAllGrows(b: Building, tags: seq<Tag>)
    requires Growing(b) && (forall i :: 0 <= i < |tags| ==> LegalTag(tags[i])) && ApplyAll(b, tags).Ok?
    ensures Growing(ApplyAll(b, tags).value)
    decreases |tags|
  {
    hide LegalTag, Apply, Growing;
    if tags != [] {
      ApplyGrows(b, tags[0]);
      ApplyAllGrows(Apply(b, tags[0]).value, tags[1..]);
    }
  }

  // ----- The main results -----

  lemma TagsMeaning(s: string, forest: seq<Node>)
    ensures Parse(s) == Ok(forest) <==>
              && Readable(s) && WithinLimits(forest)
              && AllTags(s).Ok? && Expand(AllTags(s).value) == Spelled(forest)
  {
    hide Apply, ApplyAll, AllTags, ParseFrom, Expand, Spelled, Legal, HasControl, Utf8Length;
    ParseAppliesTags(s, START);
    if AllTags(s).Ok? {
      var tags := AllTags(s).value;
      AllTagsAreLegal(s);
      if ApplyAll(START, tags).Ok? {
        AcceptedIsSpelled(tags, ApplyAll(START, tags).value);
      }
      if WithinLimits(forest) && Expand(tags) == Spelled(forest) {
        ExpandedTagsApply(START, tags);
        SpelledBuilds(START, forest);
        assert [] + forest == forest;
      }
    }
  }

  lemma AcceptedIsSpelled(tags: seq<Tag>, b: Building)
    requires (forall i :: 0 <= i < |tags| ==> LegalTag(tags[i])) && ApplyAll(START, tags) == Ok(b)
    ensures Finish(b).Ok? ==> WithinLimits(b.roots) && Spelled(b.roots) == Expand(tags)
  {
    hide LegalTag, ApplyAll, Expand;
    ApplyAllSpells(START, tags);
    ApplyAllGrows(START, tags);
    assert Written(START) == [];
    assert [] + Expand(tags) == Expand(tags);
  }

  /** The text is a layout of tags that spell the forest, and white space. */
  ghost predicate Writes(s: string, forest: seq<Node>)
  {
    exists l: seq<Placed>, end: string ::
      Good(l, end) && Text(l, end) == s && Expand(TagsOf(l)) == Spelled(forest)
  }

  /** A text is accepted as a forest exactly if it is a layout of tags that spell the forest, and text
      and forest are within the limits. */
  lemma ParseMeaning(s: string, forest: seq<Node>)
    ensures Parse(s) == Ok(forest) <==> Readable(s) && WithinLimits(forest) && Writes(s, forest)
  {
    hide Parse, Readable, WithinLimits, Good, Text, Expand, Spelled, AllTags;
    TagsMeaning(s, forest);
    if Writes(s, forest) {
      var l: seq<Placed>, end: string :| Good(l, end) && Text(l, end) == s && Expand(TagsOf(l)) == Spelled(forest);
      LayoutRead(l, end);
    }
    if AllTags(s).Ok? && Expand(AllTags(s).value) == Spelled(forest) {
      var l, end := LayoutWritten(s);
      assert Good(l, end) && Text(l, end) == s && Expand(TagsOf(l)) == Spelled(forest);
    }
  }

  /** However the tags of a forest are laid out, they are read as that forest, exactly if text and
      forest are within the limits. */
  lemma EveryLayoutIsRead(l: seq<Placed>, end: string, forest: seq<Node>)
    requires Good(l, end) && Expand(TagsOf(l)) == Spelled(forest)
    ensures Parse(Text(l, end)) == Ok(forest) <==> Readable(Text(l, end)) && WithinLimits(forest)
  {
    hide Parse, Readable, WithinLimits, Good, Text, Expand, Spelled;
    ParseMeaning(Text(l, end), forest);
  }

  lemma NoAttrsAreLegal()
    ensures LegalAttrs([]) && QuotableAttrs([])
  {
  }

  lemma {:induction false} TagsAreWritable(forest: seq<Node>)
    requires Legal(forest) && QuotableForest(forest)
    ensures Writable(Tags(forest))
  {
    hide LegalAttrs, QuotableAttrs;
    NoAttrsAreLegal();
    if forest != [] {
      TagsAreWritable(forest[0].children);
      TagsAreWritable(forest[1..]);
    }
  }

  lemma {:induction false} CanonicalTagsAreGood(tags: seq<Tag>)
    requires Writable(tags)
    ensures var l := CanonicalTags(tags); Good(l, "") && TagsOf(l) == tags && !HasControl(Text(l, ""))
  {
    hide LegalTag, QuotableAttrs, Canonical, TagText, TagOf, Writable;
    if tags != [] {
      WritableTail(tags);
      CanonicalIsGood(tags[0]);
      CanonicalHasNoControl(tags[0]);
      CanonicalTagsAreGood(tags[1..]);
      assert [tags[0]] + tags[1..] == tags;
    }
  }

  lemma NoControl(s: string, t: string)
    requires !HasControl(s) && !HasControl(t)
    ensures !HasControl(s + t)
  {
  }

  lemma CanonicalHasNoControl(tag: Tag)
    requires LegalTag(tag)
    ensures !HasControl(TagText(Canonical(tag)))
  {
    hide HasControl, AttrsText, CleanValue, IsName;
    var attrs := AttrsText(CanonicalAttrs(tag.attrs));
    AttrsHaveNoControl(tag.attrs);
    PlainText(tag.name);
    NoControl(tag.name, "");
    NoControl("", tag.name + "");
    NoControl("/", "" + (tag.name + ""));
    NoControl("", "/" + ("" + (tag.name + "")));
    NoControl(tag.name, attrs);
    var last := if tag.selfClosing then "/" + "" else "";
    NoControl("/", "");
    NoControl("", last);
    NoControl(tag.name + attrs, "" + last);
    NoControl("", tag.name + attrs + ("" + last));
  }

  lemma PlainText(name: string)
    ensures IsName(name) ==> !HasControl(name)
    ensures !HasControl("") && !HasControl("/") && !HasControl(" ") && !HasControl("=")
  {
  }

  lemma AttrHasNoControl(w: Written)
    requires !HasControl(w.name) && !HasControl(w.value) && w.before == w.after == ""
    requires w.quote.Some? && IsQuote(w.quote.value)
    ensures !HasControl(AttrText(w))
  {
    hide HasControl;
    PlainText("");
    var q := [w.quote.value];
    QuoteText(w.quote.value);
    NoControl(q, w.value);
    NoControl(q + w.value, q);
    NoControl("", ValueText(w));
    NoControl("=", "" + ValueText(w));
    NoControl("", "=" + ("" + ValueText(w)));
    NoControl(w.name, "" + ("=" + ("" + ValueText(w))));
  }

  lemma QuoteText(q: char)
    requires IsQuote(q)
    ensures !HasControl([q])
  {
  }

  lemma {:induction false} AttrsHaveNoControl(attrs: seq<Attribute>)
    requires forall i :: 0 <= i < |attrs| ==> IsName(attrs[i].name) && CleanValue(attrs[i].value)
    ensures !HasControl(AttrsText(CanonicalAttrs(attrs)))
  {
    hide HasControl, IsName, AttrText;
    PlainText("");
    if attrs != [] {
      var ws := CanonicalAttrs(attrs);
      assert ws[1..] == CanonicalAttrs(attrs[1..]);
      AttrsHaveNoControl(attrs[1..]);
      PlainText(attrs[0].name);
      AttrHasNoControl(ws[0]);
      NoControl(AttrText(ws[0]), AttrsText(ws[1..]));
      NoControl(ws[0].gap, AttrText(ws[0]) + AttrsText(ws[1..]));
    }
  }

  /** A forest with quotable values is read back from its canonical form exactly if it is
      within the limits and the form is not too long.
    */
  lemma RoundTrip(forest: seq<Node>)
    requires QuotableForest(forest)
    ensures Parse(Print(forest)) == Ok(forest) <==> WithinLimits(forest) && Utf8Length(Print(forest)) <= MAX_BLOB_BYTES
  {
    hide Parse, QuotableForest, Tags, CanonicalTags, Good, Text, Expand, Spelled;
    ParseMeaning(Print(forest), forest);
    if WithinLimits(forest) {
      TagsAreWritable(forest);
      CanonicalTagsAreGood(Tags(forest));
      TagsExpand(forest);
      EveryLayoutIsRead(CanonicalTags(Tags(forest)), "", forest);
    }
  }

  /** Printing what was accepted and parsing it again gives the same forest. */
  lemma Normalises(s: string)
    requires Parse(s).Ok? && QuotableForest(Parse(s).value) && Utf8Length(Print(Parse(s).value)) <= MAX_BLOB_BYTES
    ensures Parse(Print(Parse(s).value)) == Parse(s)
  {
    ParseMeaning(s, Parse(s).value);
    RoundTrip(Parse(s).value);
  }

  /** Different forests within the limits are spelled differently. */
  lemma SpellingIsUnique(f: seq<Node>, g: seq<Node>)
    requires WithinLimits(f) && WithinLimits(g) && Spelled(f) == Spelled(g)
    ensures f == g
  {
    SpelledBuilds(START, f);
    SpelledBuilds(START, g);
    assert [] + f == f && [] + g == g;
  }
}
