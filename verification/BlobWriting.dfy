/** Whatever is read was written: every text that the scanner takes has a layout. */
module BlobWriting {
  import opened BlobText
  import opened BlobScanner
  import opened BlobLayout
  import opened Options

  lemma NameWritten(s: string)
    requires NameLength(s) > 0
    ensures var n := NameLength(s); Spelling(s[..n]) && (n < |s| ==> !ContinuesName(s[n]))
  {
    var n := NameLength(s);
    assert n == 1 + Span(ContinuesName, s[1..]);
    assert n < |s| ==> s[n] == s[1..][n - 1];
    forall i | 0 <= i < n ensures ContinuesName(s[..n][i]) {
      assert i > 0 ==> s[i] == s[1..][i - 1];
    }
  }

  lemma ValueWritten(s: string, w: Written) returns (v: Written)
    requires s != "" && !IsSpace(s[0]) && Value(s).Ok? && CleanValue(Value(s).value.result)
    ensures var rest := Value(s).value.rest;
      && v == w.(quote := v.quote, value := Value(s).value.result) && GoodValue(v) && s == ValueText(v) + rest
      && (v.quote.None? && rest != "" ==> IsSpace(rest[0]))
  {
    var parsed := Value(s).value;
    if IsQuote(s[0]) {
      v := w.(quote := Some(s[0]), value := parsed.result);
      var n := Find(s[1..], s[0]);
      assert s[1..n + 1] == s[1..][..n];
      assert s[n + 1] == s[1..][n];
      assert s == [s[0]] + s[1..n + 1] + [s[n + 1]] + s[n + 2..];
    } else {
      v := w.(quote := None, value := parsed.result);
      var n := Span(NotSpace, s);
      assert n > 0;
      assert s == s[..n] + s[n..];
    }
  }

  lemma OneAttributeWritten(s: string, attrs: seq<Attribute>) returns (w: Written)
    requires OneAttribute(s, attrs).Ok?
    ensures var parsed := OneAttribute(s, attrs).value;
      && w.gap == "" && GoodAttr(w) && s == AttrText(w) + parsed.rest && parsed.result == attrs + [AttrOf(w)]
      && (w.quote.None? && parsed.rest != "" ==> IsSpace(parsed.rest[0]))
  {
    hide Value, TrimLeft, NameLength, Lower, HasName, Blank, GoodValue, CleanValue, ValueText;
    var n := NameLength(s);
    NameWritten(s);
    var name := s[..n];
    var before := TrimLeftSplit(s[n..]);
    var afterName := TrimLeft(s[n..]);
    assert afterName == "=" + afterName[1..];
    var after := TrimLeftSplit(afterName[1..]);
    var text := TrimLeft(afterName[1..]);
    CleanIfChecked(attrs, Lower(name), Value(text).value.result);
    w := ValueWritten(text, Written("", name, before, after, None, ""));
    NoGap();
    assert s == name + s[n..];
    assert s == AttrText(w) + Value(text).value.rest;
  }

  lemma CleanIfChecked(attrs: seq<Attribute>, name: string, value: string)
    requires Checked(attrs, name, value).Ok?
    ensures CleanValue(value) && Checked(attrs, name, value).value == attrs + [Attribute(name, value)]
  {
  }

  lemma NoGap()
    ensures Blank("")
  {
  }

  /** Every list of attributes that the loop accepts was written as such a list. */
  lemma {:induction false} AttrsWritten(s: string, glued: bool, attrs: seq<Attribute>) returns (ws: seq<Written>)
    requires Attributes(s, attrs).Ok? && (s != "" ==> !IsSpace(s[|s| - 1]))
    requires glued && s != "" ==> !ContinuesName(s[0])
    ensures GoodAttrs(ws, glued) && AttrsText(ws) == s && Attributes(s, attrs).value == attrs + AttrsOf(ws)
    decreases |s|
  {
    hide OneAttribute, TrimLeft, AttrText, GoodAttr;
    var text := TrimLeft(s);
    var gap := TrimLeftSplit(s);
    if text == "" {
      assert s == gap;
      ws := [];
      NotAllBlank(s, gap);
      assert attrs + [] == attrs;
    } else {
      var w := OneAttributeWritten(text, attrs);
      var more := OneAttribute(text, attrs).value;
      LastOfRest(s, gap, AttrText(w), more.rest);
      if w.quote.None? && more.rest != "" {
        SpacesAreNoNames(more.rest[0]);
      }
      var rest := AttrsWritten(more.rest, w.quote.None?, more.result);
      var placed := w.(gap := gap);
      Placing(w, gap);
      ws := [placed] + rest;
      assert ws[1..] == rest;
      if glued && gap == "" {
        assert s == AttrText(w) + more.rest;
        StartsLikeName(w, more.rest);
      }
      assert s == gap + (AttrText(w) + more.rest);
      assert attrs + [AttrOf(w)] + AttrsOf(rest) == attrs + ([AttrOf(w)] + AttrsOf(rest));
    }
  }

  lemma NotAllBlank(s: string, gap: string)
    requires s == gap && Blank(gap) && (s != "" ==> !IsSpace(s[|s| - 1]))
    ensures s == ""
  {
  }

  lemma LastOfRest(s: string, gap: string, text: string, rest: string)
    requires s == gap + (text + rest) && (s != "" ==> !IsSpace(s[|s| - 1]))
    ensures rest != "" ==> !IsSpace(rest[|rest| - 1])
  {
    assert rest != "" ==> s[|s| - 1] == rest[|rest| - 1];
  }

  lemma Placing(w: Written, gap: string)
    requires GoodAttr(w) && Blank(gap)
    ensures GoodAttr(w.(gap := gap)) && AttrText(w.(gap := gap)) == AttrText(w)
    ensures AttrOf(w.(gap := gap)) == AttrOf(w)
  {
  }

  lemma StartsLikeName(w: Written, rest: string)
    requires GoodAttr(w)
    ensures AttrText(w) + rest != "" && ContinuesName((AttrText(w) + rest)[0])
  {
    assert (AttrText(w) + rest)[0] == w.name[0];
  }

  lemma ClosingWritten(raw: string) returns (t: TagLayout)
    requires ParseAttrs(raw).Ok? && StartsWith(Trim(raw), '/')
    ensures t.closing && TagText(t) == raw && Shaped(t) && ParseAttrs(raw).value == Element(Lower(t.name), [], false)
    ensures !t.selfClosing && t.attrs == []
  {
    hide Trim, TrimLeft, TrimRight, NameLength, Lower, Blank, AttrsText;
    var text := Trim(raw);
    var lead, tail := TrimSplit(raw);
    var inside := TrimLeftSplit(text[1..]);
    var inner := TrimLeft(text[1..]);
    var n := NameLength(inner);
    NameWritten(inner);
    BlankExactly(inner[n..]);
    NoGap();
    t := TagLayout(lead, true, inside, inner[..n], [], inner[n..] + tail, false, "");
    BlankJoin(inner[n..], tail);
    assert inner == inner[..n] + inner[n..];
    assert text == "/" + text[1..];
  }

  /** What a good tag is apart from its end and the limits. */
  predicate Shaped(t: TagLayout)
  {
    && Blank(t.lead) && Blank(t.inside) && Blank(t.tail) && Blank(t.last)
    && Spelling(t.name) && GoodAttrs(t.attrs, true)
    && (!t.closing && !t.selfClosing ==> !EndsWith(AttrsText(t.attrs), '/'))
  }

  lemma InnerWritten(inner: string) returns (ws: seq<Written>)
    requires NameLength(inner) > 0 && Attributes(inner[NameLength(inner)..], []).Ok?
    requires !IsSpace(inner[|inner| - 1])
    ensures GoodAttrs(ws, true) && inner == inner[..NameLength(inner)] + AttrsText(ws)
    ensures Attributes(inner[NameLength(inner)..], []).value == AttrsOf(ws)
  {
    hide Attributes, NameLength;
    var n := NameLength(inner);
    NameWritten(inner);
    ws := AttrsWritten(inner[n..], true, []);
    assert [] + AttrsOf(ws) == AttrsOf(ws);
    assert inner == inner[..n] + inner[n..];
  }

  lemma SelfClosingWritten(raw: string) returns (t: TagLayout)
    requires ParseAttrs(raw).Ok? && !StartsWith(Trim(raw), '/') && EndsWith(Trim(raw), '/')
    ensures !t.closing && t.selfClosing && TagText(t) == raw && Shaped(t)
    ensures ParseAttrs(raw).value == Element(Lower(t.name), AttrsOf(t.attrs), true)
  {
    hide Trim, TrimLeft, TrimRight, NameLength, Lower, Blank, Attributes, AttrsText, AttrsOf, GoodAttrs, Spelling;
    var text := Trim(raw);
    var lead, last := TrimSplit(raw);
    NoGap();
    var tail := TrimRightSplit(text[..|text| - 1]);
    var inner := TrimRight(text[..|text| - 1]);
    var ws := InnerWritten(inner);
    NameWritten(inner);
    t := TagLayout(lead, false, "", inner[..NameLength(inner)], ws, tail, true, last);
    assert text == inner + tail + "/";
    assert raw == lead + (inner + (tail + ("/" + last)));
  }

  lemma OpenWritten(raw: string) returns (t: TagLayout)
    requires ParseAttrs(raw).Ok? && !StartsWith(Trim(raw), '/') && !EndsWith(Trim(raw), '/')
    ensures !t.closing && !t.selfClosing && TagText(t) == raw && Shaped(t)
    ensures ParseAttrs(raw).value == Element(Lower(t.name), AttrsOf(t.attrs), false)
  {
    hide Trim, TrimLeft, TrimRight, NameLength, Lower, Blank, Attributes, AttrsText, AttrsOf, GoodAttrs, Spelling;
    var text := Trim(raw);
    var lead, last := TrimSplit(raw);
    NoGap();
    var ws := InnerWritten(text);
    NameWritten(text);
    t := TagLayout(lead, false, "", text[..NameLength(text)], ws, last, false, "");
    EndsAlike(text, t.name, AttrsText(ws));
    assert last + "" == last;
  }

  lemma EndsAlike(s: string, name: string, rest: string)
    requires s == name + rest && !EndsWith(s, '/')
    ensures !EndsWith(rest, '/')
  {
    assert rest != "" ==> s[|s| - 1] == rest[|rest| - 1];
  }

  lemma {:induction false} PassesBeforeEnd(s: string, p: Option<char>)
    requires TagLength(s, p).Some?
    ensures var n := TagLength(s, p).value; Passes(s[..n], p, None) && s[n] == '>'
  {
    if !(p == None && s[0] == '>') {
      PassesBeforeEnd(s[1..], QuoteAfter(s[0], p));
      var n := TagLength(s, p).value;
      assert s[..n][1..] == s[1..][..n - 1];
    }
  }

  lemma RawWritten(raw: string) returns (t: TagLayout)
    requires ParseAttrs(raw).Ok?
    ensures TagText(t) == raw && Shaped(t) && t.closing == StartsWith(TrimLeft(raw), '/')
    ensures ParseAttrs(raw).value == Element(Lower(t.name), AttrsOf(t.attrs), t.selfClosing)
  {
    hide ParseAttrs, TagText, Shaped, TrimLeft, TrimRight;
    TrimKeepsStart(TrimLeft(raw), '/');
    if StartsWith(Trim(raw), '/') {
      t := ClosingWritten(raw);
      assert AttrsOf([]) == [];
    } else if EndsWith(Trim(raw), '/') {
      t := SelfClosingWritten(raw);
    } else {
      t := OpenWritten(raw);
    }
  }

  lemma NextParts(s: string)
    requires NextTag(s).Ok? && NextTag(s).value.Found?
    ensures var next, opening := NextTag(s).value, Find(s, '<');
      && opening < |s| && s[opening] == '<' && Trim(s[..opening]) == ""
      && ScanTag(s[opening + 1..]).Ok?
      && var scanned := ScanTag(s[opening + 1..]).value;
      && next.rest == scanned.rest && ParseAttrs(scanned.raw).Ok?
      && ParseAttrs(scanned.raw).value == Element(next.tag.name, next.tag.attrs, next.tag.selfClosing)
      && next.tag.closing == scanned.closing
  {
    hide ParseAttrs, ScanTag, Trim;
  }

  lemma SplitAt(s: string, i: nat)
    requires i < |s|
    ensures s == s[..i] + ([s[i]] + s[i + 1..])
  {
  }

  /** Every tag that is read was written as a good tag after white space. */
  lemma TagWritten(s: string) returns (p: Placed)
    requires NextTag(s).Ok? && NextTag(s).value.Found?
    ensures var next := NextTag(s).value;
      && Blank(p.gap) && GoodTag(p.tag) && TagOf(p.tag) == next.tag
      && s == p.gap + ("<" + (TagText(p.tag) + (">" + next.rest)))
  {
    hide *;
    NextParts(s);
    SplitAt(s, Find(s, '<'));
    var gap, after := s[..Find(s, '<')], s[Find(s, '<') + 1..];
    BlankExactly(gap);
    TagsAreLegal(s);
    ScanWritten(after);
    var t := RawWritten(ScanTag(after).value.raw);
    p := Placed(gap, t);
    SameTag(t, NextTag(s).value.tag, ScanTag(after).value.raw);
  }

  lemma SameTag(t: TagLayout, tag: Tag, raw: string)
    requires LegalTag(tag) && Shaped(t) && t.closing == tag.closing && TagText(t) == raw && Passes(raw, None, None)
    requires ParseAttrs(raw).Ok? && ParseAttrs(raw).value == Element(tag.name, tag.attrs, tag.selfClosing)
    requires ParseAttrs(raw).value == Element(Lower(t.name), AttrsOf(t.attrs), t.selfClosing)
    ensures GoodTag(t) && TagOf(t) == tag
  {
  }

  lemma ScanWritten(s: string)
    requires ScanTag(s).Ok?
    ensures var scanned := ScanTag(s).value;
      && Passes(scanned.raw, None, None) && scanned.closing == StartsWith(TrimLeft(scanned.raw), '/')
      && s == scanned.raw + (">" + scanned.rest)
  {
    var n := TagLength(s, None).value;
    PassesBeforeEnd(s, None);
    SplitAt(s, n);
  }

  lemma EndWritten(s: string)
    requires NextTag(s) == Ok(Finished)
    ensures Blank(s)
  {
    BlankExactly(s);
  }
}
