/** The canonical layout of a tag, and layouts whose quotes and angle brackets end no tag too early. */
module BlobPrinter {
  import opened BlobText
  import opened BlobScanner
  import opened BlobLayout
  import opened Options

  /** A value is written between double quotes, or single ones if it contains a double
      quote. One that contains both has no canonical form.
    */
  predicate Quotable(value: string)
  {
    '"' !in value || '\'' !in value
  }

  ghost predicate QuotableAttrs(attrs: seq<Attribute>)
  {
    forall i :: 0 <= i < |attrs| ==> Quotable(attrs[i].value)
  }

  function QuoteFor(value: string): (q: char)
    ensures IsQuote(q) && (Quotable(value) ==> q !in value)
  {
    if '"' in value then '\'' else '"'
  }

  function CanonicalAttrs(attrs: seq<Attribute>): seq<Written>
  {
    if attrs == [] then []
    else
      var a := attrs[0];
      [Written(" ", a.name, "", "", Some(QuoteFor(a.value)), a.value)] + CanonicalAttrs(attrs[1..])
  }

  function Canonical(tag: Tag): TagLayout
  {
    TagLayout("", tag.closing, "", tag.name, CanonicalAttrs(tag.attrs), "", tag.selfClosing, "")
  }

  function CanonicalTags(tags: seq<Tag>): seq<Placed>
  {
    if tags == [] then [] else [Placed("", Canonical(tags[0]))] + CanonicalTags(tags[1..])
  }

  // ----- Layouts that end where they should -----

  /** Values without quotes around them contain neither quotes nor '>'. */
  predicate Plain(ws: seq<Written>)
  {
    ws != [] ==>
      && (ws[0].quote.None? ==> forall i :: 0 <= i < |ws[0].value| ==>
            !IsQuote(ws[0].value[i]) && ws[0].value[i] != '>')
      && Plain(ws[1..])
  }

  lemma {:induction false} PassesConcat(s: string, t: string, p: Option<char>, q: Option<char>, r: Option<char>)
    requires Passes(s, p, q) && Passes(t, q, r)
    ensures Passes(s + t, p, r)
  {
    if s == "" {
      assert s + t == t;
    } else {
      PassesConcat(s[1..], t, QuoteAfter(s[0], p), q, r);
      assert (s + t)[1..] == s[1..] + t;
    }
  }

  lemma {:induction false} PlainPasses(s: string)
    requires forall i :: 0 <= i < |s| ==> !IsQuote(s[i]) && s[i] != '>'
    ensures Passes(s, None, None)
  {
    if s != "" {
      assert !IsQuote(s[0]) && s[0] != '>';
      PlainPasses(s[1..]);
    }
  }

  lemma BlankPasses(s: string)
    requires Blank(s)
    ensures Passes(s, None, None)
  {
    forall i | 0 <= i < |s| ensures !IsQuote(s[i]) && s[i] != '>' {
      SpacesAreNoNames(s[i]);
    }
    PlainPasses(s);
  }

  lemma NamePasses(s: string)
    requires Spelling(s)
    ensures Passes(s, None, None)
  {
    forall i | 0 <= i < |s| ensures !IsQuote(s[i]) && s[i] != '>' {
      SpacesAreNoNames(s[i]);
    }
    PlainPasses(s);
  }

  lemma {:induction false} QuotedPasses(s: string, q: char)
    requires q !in s
    ensures Passes(s, Some(q), Some(q))
  {
    if s != "" {
      assert s[0] != q;
      QuotedPasses(s[1..], q);
    }
  }

  lemma ValuePasses(w: Written)
    requires GoodValue(w) && Plain([w])
    ensures Passes(ValueText(w), None, None)
  {
    if w.quote.Some? {
      var q := w.quote.value;
      QuotedPasses(w.value, q);
      assert Passes([q], None, Some(q)) && Passes([q], Some(q), None);
      PassesConcat([q], w.value, None, Some(q), Some(q));
      PassesConcat([q] + w.value, [q], None, Some(q), None);
    } else {
      PlainPasses(w.value);
    }
  }

  lemma AttrPasses(w: Written)
    requires GoodAttr(w) && Plain([w])
    ensures Passes(AttrText(w), None, None)
  {
    hide GoodValue, ValueText, Plain;
    ValuePasses(w);
    NamePasses(w.name);
    BlankPasses(w.before);
    BlankPasses(w.after);
    PlainPasses("=");
    PassesConcat(w.after, ValueText(w), None, None, None);
    PassesConcat("=", w.after + ValueText(w), None, None, None);
    PassesConcat(w.before, "=" + (w.after + ValueText(w)), None, None, None);
    PassesConcat(w.name, w.before + ("=" + (w.after + ValueText(w))), None, None, None);
  }

  lemma {:induction false} AttrsPass(ws: seq<Written>, glued: bool)
    requires GoodAttrs(ws, glued) && Plain(ws)
    ensures Passes(AttrsText(ws), None, None)
    decreases |ws|
  {
    hide AttrText, GoodValue;
    if ws != [] {
      AttrsPass(ws[1..], ws[0].quote.None?);
      assert Plain([ws[0]]) by {
        assert [ws[0]][1..] == [];
      }
      AttrPasses(ws[0]);
      BlankPasses(ws[0].gap);
      PassesConcat(AttrText(ws[0]), AttrsText(ws[1..]), None, None, None);
      PassesConcat(ws[0].gap, AttrText(ws[0]) + AttrsText(ws[1..]), None, None, None);
    }
  }

  /** In such a tag every quote that is opened is closed. */
  lemma PlainTagPasses(t: TagLayout)
    requires Blank(t.lead) && Blank(t.inside) && Blank(t.tail) && Blank(t.last)
    requires Spelling(t.name) && GoodAttrs(t.attrs, true) && Plain(t.attrs)
    ensures Passes(TagText(t), None, None)
  {
    hide AttrsText, GoodAttrs, Plain, Spelling, Blank, Passes;
    BlankPasses(t.lead);
    BlankPasses(t.tail);
    NamePasses(t.name);
    PlainPasses("/");
    if t.closing {
      BlankPasses(t.inside);
      PassesConcat(t.name, t.tail, None, None, None);
      PassesConcat(t.inside, t.name + t.tail, None, None, None);
      PassesConcat("/", t.inside + (t.name + t.tail), None, None, None);
      PassesConcat(t.lead, "/" + (t.inside + (t.name + t.tail)), None, None, None);
    } else {
      var last := if t.selfClosing then "/" + t.last else "";
      if t.selfClosing {
        BlankPasses(t.last);
        PassesConcat("/", t.last, None, None, None);
      } else {
        PlainPasses("");
      }
      AttrsPass(t.attrs, true);
      PassesConcat(t.name, AttrsText(t.attrs), None, None, None);
      PassesConcat(t.tail, last, None, None, None);
      PassesConcat(t.name + AttrsText(t.attrs), t.tail + last, None, None, None);
      PassesConcat(t.lead, (t.name + AttrsText(t.attrs)) + (t.tail + last), None, None, None);
    }
  }

  // ----- The canonical layout is a layout -----

  lemma NamesAreSpellings(name: string)
    requires IsName(name)
    ensures Spelling(name) && Lower(name) == name
  {
    LowerKeepsNames(name);
  }

  lemma {:induction false} CanonicalAttrsAreGood(attrs: seq<Attribute>, glued: bool)
    requires QuotableAttrs(attrs)
    requires forall i :: 0 <= i < |attrs| ==> IsName(attrs[i].name) && CleanValue(attrs[i].value)
    ensures var ws := CanonicalAttrs(attrs); GoodAttrs(ws, glued) && Plain(ws) && AttrsOf(ws) == attrs
    decreases |attrs|
  {
    hide CleanValue, IsName, Spelling;
    if attrs != [] {
      NamesAreSpellings(attrs[0].name);
      CanonicalAttrsAreGood(attrs[1..], false);
      assert attrs == [attrs[0]] + attrs[1..];
    }
  }

  lemma EndsLikeRest(s: string, t: string, c: char)
    requires EndsWith(t, c)
    ensures EndsWith(s + t, c)
  {
  }

  lemma {:induction false} CanonicalEnds(attrs: seq<Attribute>)
    requires attrs != []
    ensures var q := QuoteFor(attrs[|attrs| - 1].value); EndsWith(AttrsText(CanonicalAttrs(attrs)), q) && q != '/'
    decreases |attrs|
  {
    hide EndsWith;
    var ws := CanonicalAttrs(attrs);
    var w, rest, q := ws[0], AttrsText(ws[1..]), QuoteFor(attrs[|attrs| - 1].value);
    assert ws[1..] == CanonicalAttrs(attrs[1..]);
    if |attrs| > 1 {
      CanonicalEnds(attrs[1..]);
      EndsLikeRest(AttrText(w), rest, q);
    } else {
      ItsOwnEnd([q]);
      EndsLikeRest([q] + w.value, [q], q);
      EndsLikeRest("", ValueText(w), q);
      EndsLikeRest("=", "" + ValueText(w), q);
      EndsLikeRest("", "=" + ("" + ValueText(w)), q);
      EndsLikeRest(w.name, "" + ("=" + ("" + ValueText(w))), q);
      assert AttrText(w) + rest == AttrText(w);
    }
    EndsLikeRest(w.gap, AttrText(w) + rest, q);
  }

  lemma ItsOwnEnd(s: string)
    requires s != ""
    ensures EndsWith(s, s[|s| - 1])
  {
  }

  lemma NoAttrsText()
    ensures AttrsText(CanonicalAttrs([])) == ""
  {
  }

  /** Every legal tag whose values can be quoted has its canonical layout. */
  lemma CanonicalIsGood(tag: Tag)
    requires LegalTag(tag) && QuotableAttrs(tag.attrs)
    ensures GoodTag(Canonical(tag)) && TagOf(Canonical(tag)) == tag
  {
    hide CanonicalAttrs, QuotableAttrs, IsName, CleanValue, Plain, AttrsText, Passes, Spelling;
    NamesAreSpellings(tag.name);
    CanonicalAttrsAreGood(tag.attrs, true);
    if tag.attrs != [] {
      CanonicalEnds(tag.attrs);
    } else {
      NoAttrsText();
    }
    PlainTagPasses(Canonical(tag));
  }
}
