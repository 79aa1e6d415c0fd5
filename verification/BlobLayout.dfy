/** How a kill blob may be written: with any white space, either quote or none, and names in any case. */
module BlobLayout {
  import opened BlobText
  import opened BlobScanner
  import opened Options

  predicate Blank(s: string)
  {
    forall i :: 0 <= i < |s| ==> IsSpace(s[i])
  }

  /** A name as it may be spelled. */
  predicate Spelling(name: string)
  {
    name != "" && StartsName(name[0]) && forall i :: 0 <= i < |name| ==> ContinuesName(name[i])
  }

  // ----- Attributes -----

  /** White space, the name, white space around the '=', and the value with or without quotes. */
  datatype Written = Written(
    gap: string, name: string, before: string, after: string, quote: Option<char>, value: string)

  function ValueText(w: Written): string
  {
    if w.quote.Some? then [w.quote.value] + w.value + [w.quote.value] else w.value
  }

  function AttrText(w: Written): string
  {
    w.name + (w.before + ("=" + (w.after + ValueText(w))))
  }

  function AttrsText(ws: seq<Written>): string
  {
    if ws == [] then "" else ws[0].gap + (AttrText(ws[0]) + AttrsText(ws[1..]))
  }

  /** A value without quotes ends at the next white space. */
  predicate GoodValue(w: Written)
  {
    && CleanValue(w.value)
    && match w.quote
       case Some(q) => IsQuote(q) && q !in w.value
       case None => w.value != "" && !IsQuote(w.value[0]) && forall i :: 0 <= i < |w.value| ==> !IsSpace(w.value[i])
  }

  predicate GoodAttr(w: Written)
  {
    Blank(w.gap) && Blank(w.before) && Blank(w.after) && Spelling(w.name) && GoodValue(w)
  }

  /** White space must separate an attribute from a name or a value without quotes before it. */
  predicate GoodAttrs(ws: seq<Written>, glued: bool)
  {
    ws != [] ==> GoodAttr(ws[0]) && (glued ==> ws[0].gap != "") && GoodAttrs(ws[1..], ws[0].quote.None?)
  }

  function AttrOf(w: Written): Attribute
  {
    Attribute(Lower(w.name), w.value)
  }

  function AttrsOf(ws: seq<Written>): seq<Attribute>
  {
    if ws == [] then [] else [AttrOf(ws[0])] + AttrsOf(ws[1..])
  }

  // ----- Tags -----

  /** `inside` follows the slash of a closing tag, `last` that of a self-closing one. */
  datatype TagLayout = TagLayout(
    lead: string, closing: bool, inside: string, name: string, attrs: seq<Written>, tail: string,
    selfClosing: bool, last: string)

  /** The characters between '<' and '>'. */
  function TagText(t: TagLayout): string
  {
    if t.closing then t.lead + ("/" + (t.inside + (t.name + t.tail)))
    else t.lead + ((t.name + AttrsText(t.attrs)) + (t.tail + (if t.selfClosing then "/" + t.last else "")))
  }

  function TagOf(t: TagLayout): Tag
  {
    Tag(t.closing, Lower(t.name), AttrsOf(t.attrs), t.selfClosing)
  }

  /** Reading `s` with quote `p` open leaves quote `q` open and passes no end of tag. */
  predicate Passes(s: string, p: Option<char>, q: Option<char>)
  {
    if s == "" then p == q
    else !(p == None && s[0] == '>') && Passes(s[1..], QuoteAfter(s[0], p), q)
  }

  /** The slash of a last value without quotes would make the tag self-closing, and its quotes and
      angle brackets count for the end of the tag. */
  ghost predicate GoodTag(t: TagLayout)
  {
    && Blank(t.lead) && Blank(t.inside) && Blank(t.tail) && Blank(t.last)
    && Spelling(t.name) && GoodAttrs(t.attrs, true) && LegalTag(TagOf(t))
    && (!t.closing && !t.selfClosing ==> !EndsWith(AttrsText(t.attrs), '/'))
    && Passes(TagText(t), None, None)
  }

  // ----- Texts -----

  /** A tag with the white space before it. */
  datatype Placed = Placed(gap: string, tag: TagLayout)

  function Text(l: seq<Placed>, end: string): string
  {
    if l == [] then end else l[0].gap + ("<" + (TagText(l[0].tag) + (">" + Text(l[1..], end))))
  }

  function TagsOf(l: seq<Placed>): seq<Tag>
  {
    if l == [] then [] else [TagOf(l[0].tag)] + TagsOf(l[1..])
  }

  ghost predicate Good(l: seq<Placed>, end: string)
  {
    if l == [] then Blank(end) else Blank(l[0].gap) && GoodTag(l[0].tag) && Good(l[1..], end)
  }

  // ----- White space around a text -----

  lemma {:induction false} TrimLeftOf(gap: string, s: string)
    requires Blank(gap) && (s == "" || !IsSpace(s[0]))
    ensures TrimLeft(gap + s) == s
  {
    if gap == "" {
      assert gap + s == s;
    } else {
      assert (gap + s)[0] == gap[0] && (gap + s)[1..] == gap[1..] + s;
      TrimLeftOf(gap[1..], s);
    }
  }

  lemma {:induction false} TrimRightOf(s: string, gap: string)
    requires Blank(gap) && (s == "" || !IsSpace(s[|s| - 1]))
    ensures TrimRight(s + gap) == s
  {
    if gap == "" {
      assert s + gap == s;
    } else {
      var text := s + gap;
      assert text[|text| - 1] == gap[|gap| - 1] && text[..|text| - 1] == s + gap[..|gap| - 1];
      TrimRightOf(s, gap[..|gap| - 1]);
    }
  }

  lemma TrimOf(before: string, s: string, after: string)
    requires Blank(before) && Blank(after) && s != "" && !IsSpace(s[0]) && !IsSpace(s[|s| - 1])
    ensures Trim(before + (s + after)) == s && TrimLeft(before + (s + after)) == s + after
  {
    assert (s + after)[0] == s[0];
    TrimLeftOf(before, s + after);
    TrimRightOf(s, after);
  }

  lemma BlankOne(s: string)
    requires s == "" || (|s| == 1 && IsSpace(s[0]))
    ensures Blank(s)
  {
  }

  lemma BlankJoin(s: string, t: string)
    requires Blank(s) && Blank(t)
    ensures Blank(s + t)
  {
  }

  /** What `str.lstrip` removes. */
  lemma {:induction false} TrimLeftSplit(s: string) returns (gap: string)
    ensures Blank(gap) && s == gap + TrimLeft(s)
  {
    hide Blank, IsSpace;
    if s != "" && IsSpace(s[0]) {
      var rest := TrimLeftSplit(s[1..]);
      gap := [s[0]] + rest;
      BlankOne([s[0]]);
      BlankJoin([s[0]], rest);
      assert [s[0]] + (rest + TrimLeft(s[1..])) == gap + TrimLeft(s[1..]);
      assert s == [s[0]] + s[1..];
    } else {
      gap := "";
      BlankOne(gap);
      assert s == gap + s;
    }
  }

  /** What `str.rstrip` removes. */
  lemma {:induction false} TrimRightSplit(s: string) returns (gap: string)
    ensures Blank(gap) && s == TrimRight(s) + gap
    ensures var r := TrimRight(s); r != "" ==> !IsSpace(r[|r| - 1])
  {
    hide Blank, IsSpace;
    if s != "" && IsSpace(s[|s| - 1]) {
      var rest := TrimRightSplit(s[..|s| - 1]);
      gap := rest + [s[|s| - 1]];
      BlankOne([s[|s| - 1]]);
      BlankJoin(rest, [s[|s| - 1]]);
      assert (TrimRight(s[..|s| - 1]) + rest) + [s[|s| - 1]] == TrimRight(s[..|s| - 1]) + gap;
      assert s == s[..|s| - 1] + [s[|s| - 1]];
    } else {
      gap := "";
      BlankOne(gap);
      assert s == s + gap;
    }
  }

  lemma TrimSplit(s: string) returns (before: string, after: string)
    ensures Blank(before) && Blank(after) && s == before + (Trim(s) + after)
    ensures var r := Trim(s); r != "" ==> !IsSpace(r[0]) && !IsSpace(r[|r| - 1])
  {
    before := TrimLeftSplit(s);
    after := TrimRightSplit(TrimLeft(s));
    var r := Trim(s);
    assert r != "" ==> r[0] == TrimLeft(s)[0];
  }

  lemma BlankExactly(s: string)
    ensures Trim(s) == "" <==> Blank(s)
  {
    if Blank(s) {
      TrimLeftOf(s, "");
      assert s + "" == s;
    }
    if Trim(s) == "" {
      var before, after := TrimSplit(s);
      assert s == before + after;
    }
  }

  lemma SpacesAreNoNames(c: char)
    ensures IsSpace(c) ==> !ContinuesName(c) && c != '/' && c != '<' && c != '=' && c != '>' && !IsQuote(c)
    ensures ContinuesName(c) ==> c != '/' && c != '<' && c != '=' && c != '>' && !IsQuote(c)
  {
  }
}
