/** Whatever the layout, what was written is read: names up to the first character that cannot
    continue them, values up to their closing quote or the next white space, attributes in their
    order, and each tag up to its own end.
  */
module BlobReading {
  import opened BlobText
  import opened BlobScanner
  import opened BlobLayout
  import opened Options

  /** A name is read up to the first character that cannot continue it. */
  lemma NameRead(name: string, rest: string)
    requires Spelling(name) && (rest == "" || !ContinuesName(rest[0]))
    ensures NameLength(name + rest) == |name| && (name + rest)[..|name|] == name && (name + rest)[|name|..] == rest
  {
    var s := name + rest;
    assert s[0] == name[0];
    SpanAt(ContinuesName, s[1..], |name| - 1);
  }

  lemma ValueRead(w: Written, rest: string)
    requires GoodValue(w) && (w.quote.None? && rest != "" ==> IsSpace(rest[0]))
    ensures Value(ValueText(w) + rest) == Ok(Parsed(w.value, rest))
  {
    var s := ValueText(w) + rest;
    if w.quote.Some? {
      var q := w.quote.value;
      assert s[0] == q && s[1..] == w.value + [q] + rest;
      FindAt(s[1..], q, |w.value|);
      assert s[1..|w.value| + 1] == w.value && s[|w.value| + 2..] == rest;
    } else {
      SpanAt(NotSpace, s, |w.value|);
      assert s[..|w.value|] == w.value && s[|w.value|..] == rest;
    }
  }

  lemma ValueStarts(w: Written, rest: string)
    requires GoodValue(w)
    ensures ValueText(w) + rest != "" && !IsSpace((ValueText(w) + rest)[0])
  {
    assert w.quote.None? ==> (w.value + rest)[0] == w.value[0];
  }

  lemma AttrTextSplit(w: Written, rest: string)
    ensures AttrText(w) + rest == w.name + (w.before + ("=" + (w.after + (ValueText(w) + rest))))
  {
  }

  lemma NotContinued(before: string, rest: string)
    requires Blank(before)
    ensures !ContinuesName((before + ("=" + rest))[0])
    ensures TrimLeft(before + ("=" + rest)) == "=" + rest && ("=" + rest)[1..] == rest
  {
    TrimLeftOf(before, "=" + rest);
    if before != "" {
      assert (before + ("=" + rest))[0] == before[0];
      SpacesAreNoNames(before[0]);
    }
  }

  lemma OneAttributeRead(w: Written, rest: string, attrs: seq<Attribute>)
    requires GoodAttr(w) && (w.quote.None? && rest != "" ==> IsSpace(rest[0]))
    requires !HasName(attrs, Lower(w.name)) && |attrs| < MAX_ATTRIBUTES
    ensures OneAttribute(AttrText(w) + rest, attrs) == Ok(Parsed(attrs + [AttrOf(w)], rest))
  {
    hide AttrText, ValueText, Value, TrimLeft, NameLength, GoodValue, Lower, Blank, HasName;
    var text := ValueText(w) + rest;
    AttrTextSplit(w, rest);
    NotContinued(w.before, w.after + text);
    NameRead(w.name, w.before + ("=" + (w.after + text)));
    ValueStarts(w, rest);
    TrimLeftOf(w.after, text);
    ValueRead(w, rest);
    CheckedClean(attrs, Lower(w.name), w);
  }

  lemma CheckedClean(attrs: seq<Attribute>, name: string, w: Written)
    requires GoodValue(w) && |attrs| < MAX_ATTRIBUTES
    ensures Checked(attrs, name, w.value) == Ok(attrs + [Attribute(name, w.value)])
  {
  }

  lemma AttrStarts(w: Written, rest: string)
    requires GoodAttr(w)
    ensures AttrText(w) + rest != "" && !IsSpace((AttrText(w) + rest)[0])
    ensures StartsName((AttrText(w) + rest)[0])
  {
    assert (AttrText(w) + rest)[0] == w.name[0];
    SpacesAreNoNames(w.name[0]);
  }

  /** The attribute loop reads any well-written list of attributes back. */
  lemma {:induction false} AttrsRead(ws: seq<Written>, glued: bool, attrs: seq<Attribute>)
    requires GoodAttrs(ws, glued) && LegalAttrs(attrs + AttrsOf(ws))
    ensures Attributes(AttrsText(ws), attrs) == Ok(attrs + AttrsOf(ws))
    decreases |ws|
  {
    hide OneAttribute, AttrText, TrimLeft, CleanValue, GoodAttr;
    if ws == [] {
      NothingToTrim();
      assert attrs + [] == attrs;
    } else {
      var w, rest := ws[0], AttrsText(ws[1..]);
      var all := attrs + AttrsOf(ws);
      assert all[|attrs|] == AttrOf(w);
      assert !HasName(attrs, Lower(w.name)) by {
        assert forall i :: 0 <= i < |attrs| ==> attrs[i] == all[i];
      }
      AttrStarts(w, rest);
      GapIsBlank(w);
      TrimLeftOf(w.gap, AttrText(w) + rest);
      RestStarts(ws[1..]);
      OneAttributeRead(w, rest, attrs);
      assert attrs + [AttrOf(w)] + AttrsOf(ws[1..]) == all;
      AttrsRead(ws[1..], w.quote.None?, attrs + [AttrOf(w)]);
    }
  }

  lemma NothingToTrim()
    ensures TrimLeft("") == ""
  {
  }

  lemma GapIsBlank(w: Written)
    requires GoodAttr(w)
    ensures Blank(w.gap)
  {
  }

  /** What follows a name or a value without quotes starts with white space. */
  lemma RestStarts(ws: seq<Written>)
    ensures GoodAttrs(ws, true) && AttrsText(ws) != "" ==>
            IsSpace(AttrsText(ws)[0]) && !ContinuesName(AttrsText(ws)[0])
  {
    if ws != [] && GoodAttrs(ws, true) {
      assert AttrsText(ws)[0] == ws[0].gap[0];
      SpacesAreNoNames(ws[0].gap[0]);
    }
  }

  /** A list of attributes ends with a quote or with the last character of a value. */
  lemma {:induction false} AttrsEnd(ws: seq<Written>, glued: bool)
    requires GoodAttrs(ws, glued) && ws != []
    ensures var s := AttrsText(ws); s != "" && !IsSpace(s[|s| - 1])
    decreases |ws|
  {
    var s, rest := AttrsText(ws), AttrsText(ws[1..]);
    if |ws| > 1 {
      AttrsEnd(ws[1..], ws[0].quote.None?);
      assert s[|s| - 1] == rest[|rest| - 1];
    } else {
      var value := ValueText(ws[0]);
      assert s == ws[0].gap + ws[0].name + ws[0].before + "=" + ws[0].after + value;
      assert s[|s| - 1] == value[|value| - 1];
    }
  }

  /** A name and the attributes after it have no white space at either end. */
  lemma InnerEnds(name: string, ws: seq<Written>)
    requires Spelling(name) && GoodAttrs(ws, true)
    ensures var s := name + AttrsText(ws);
      && s != "" && !IsSpace(s[0]) && !IsSpace(s[|s| - 1]) && s[0] != '/' && StartsName(s[0])
      && (EndsWith(s, '/') <==> EndsWith(AttrsText(ws), '/'))
  {
    hide AttrsText, GoodAttrs;
    var text := AttrsText(ws);
    var s := name + text;
    SpacesAreNoNames(name[0]);
    SpacesAreNoNames(name[|name| - 1]);
    if text == "" {
      assert s == name;
    } else {
      NonemptyText(ws);
      AttrsEnd(ws, true);
      assert s[|s| - 1] == text[|text| - 1];
    }
  }

  lemma NonemptyText(ws: seq<Written>)
    requires AttrsText(ws) != ""
    ensures ws != []
  {
  }

  lemma InnerRead(name: string, ws: seq<Written>)
    requires Spelling(name) && GoodAttrs(ws, true) && LegalAttrs(AttrsOf(ws))
    ensures var s := name + AttrsText(ws);
      NameLength(s) == |name| && s[..|name|] == name && Attributes(s[|name|..], []) == Ok(AttrsOf(ws))
  {
    hide AttrsText, GoodAttrs, Attributes, NameLength, LegalAttrs;
    RestStarts(ws);
    NameRead(name, AttrsText(ws));
    assert [] + AttrsOf(ws) == AttrsOf(ws);
    AttrsRead(ws, true, []);
  }

  lemma ClosingRead(t: TagLayout)
    requires GoodTag(t) && t.closing
    ensures ParseAttrs(TagText(t)) == Ok(Element(Lower(t.name), [], false))
    ensures StartsWith(TrimLeft(TagText(t)), '/')
  {
    hide Trim, TrimLeft, TrimRight, NameLength, Lower, Passes, LegalTag, GoodAttrs, AttrsText;
    var inner := t.inside + t.name;
    var core := "/" + inner;
    SpacesAreNoNames(t.name[0]);
    SpacesAreNoNames(t.name[|t.name| - 1]);
    assert core[|core| - 1] == t.name[|t.name| - 1];
    assert TagText(t) == t.lead + (core + t.tail);
    TrimOf(t.lead, core, t.tail);
    assert core[1..] == inner;
    TrimLeftOf(t.inside, t.name);
    assert t.name + "" == t.name;
    NameRead(t.name, "");
    assert t.name[|t.name|..] == "";
    BlankExactly("");
  }

  lemma OpeningRead(t: TagLayout)
    requires GoodTag(t) && !t.closing
    ensures ParseAttrs(TagText(t)) == Ok(Element(Lower(t.name), AttrsOf(t.attrs), t.selfClosing))
    ensures !StartsWith(TrimLeft(TagText(t)), '/')
  {
    hide Trim, TrimLeft, TrimRight, NameLength, Lower, Passes, Attributes, GoodAttrs, AttrsText, LegalAttrs, Blank;
    var inner := t.name + AttrsText(t.attrs);
    InnerEnds(t.name, t.attrs);
    InnerRead(t.name, t.attrs);
    if t.selfClosing {
      var core := inner + t.tail + "/";
      assert core[0] == inner[0];
      assert TagText(t) == t.lead + (core + t.last);
      TrimOf(t.lead, core, t.last);
      assert core[..|core| - 1] == inner + t.tail;
      TrimRightOf(inner, t.tail);
    } else {
      assert t.tail + "" == t.tail;
      TrimOf(t.lead, inner, t.tail);
    }
  }

  lemma {:induction false} EndAfter(s: string, rest: string, p: Option<char>)
    requires Passes(s, p, None)
    ensures TagLength(s + (">" + rest), p) == Some(|s|)
  {
    var text := s + (">" + rest);
    if s == "" {
      assert text[0] == '>';
    } else {
      EndAfter(s[1..], rest, QuoteAfter(s[0], p));
      assert text[1..] == s[1..] + (">" + rest);
    }
  }

  lemma TagStarts(t: TagLayout)
    requires GoodTag(t)
    ensures !StartsWith(TagText(t), '!') && !StartsWith(TagText(t), '?')
  {
    hide Passes, AttrsText, GoodAttrs, LegalTag;
    assert t.lead != "" ==> TagText(t)[0] == t.lead[0];
    assert t.lead == "" ==> TagText(t)[0] == if t.closing then '/' else t.name[0];
  }

  lemma ScanRead(t: TagLayout, rest: string)
    requires GoodTag(t)
    ensures ScanTag(TagText(t) + (">" + rest)) == Ok(Scanned(TagText(t), t.closing, rest))
  {
    hide TagLength, TagText, GoodAttrs, LegalTag, TrimLeft, Passes, ParseAttrs;
    var body := TagText(t);
    var s := body + (">" + rest);
    EndAfter(body, rest, None);
    TagStarts(t);
    assert s[..|body|] == body && s[|body| + 1..] == rest;
    if t.closing {
      ClosingRead(t);
    } else {
      OpeningRead(t);
    }
  }

  /** Each well-written tag is read, whatever white space stands before it and whatever follows. */
  lemma TagRead(gap: string, t: TagLayout, rest: string)
    requires Blank(gap) && GoodTag(t)
    ensures NextTag(gap + ("<" + (TagText(t) + (">" + rest)))) == Ok(Found(TagOf(t), rest))
  {
    hide ParseAttrs, ScanTag, TagText, GoodAttrs, LegalTag, Trim, Passes;
    var after := TagText(t) + (">" + rest);
    var s := gap + ("<" + after);
    forall i | 0 <= i < |gap| ensures s[i] != '<' {
      SpacesAreNoNames(gap[i]);
    }
    FindAt(s, '<', |gap|);
    assert s[..|gap|] == gap && s[|gap| + 1..] == after;
    BlankExactly(gap);
    ScanRead(t, rest);
    if t.closing {
      ClosingRead(t);
      assert AttrsOf(t.attrs) == [] && !t.selfClosing by { LegalClosing(t); }
    } else {
      OpeningRead(t);
    }
  }

  lemma LegalClosing(t: TagLayout)
    requires GoodTag(t) && t.closing
    ensures AttrsOf(t.attrs) == [] && !t.selfClosing
  {
  }

  lemma EndRead(end: string)
    requires Blank(end)
    ensures NextTag(end) == Ok(Finished)
  {
    BlankExactly(end);
    forall i | 0 <= i < |end| ensures end[i] != '<' {
      SpacesAreNoNames(end[i]);
    }
  }
}
