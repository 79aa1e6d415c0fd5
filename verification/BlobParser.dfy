/** The parser's index loops, each proved to compute the function that specifies it. */
module BlobParser {
  import opened BlobText
  import opened BlobScanner
  import opened BlobForest
  import opened Options

  lemma TagSlices(s: string, start: nat, end: nat)
    requires start < end < |s|
    ensures s[start + 1..][..end - start - 1] == s[start + 1..end] && s[start + 1..][end - start..] == s[end + 1..]
  {
  }

  /** The index of the '>' that ends the tag, or the length of the text. */
  method EndOfTag(source: string, start: nat) returns (index: nat)
    requires start < |source|
    ensures start < index <= |source|
    ensures TagLength(source[start + 1..], None) == if index < |source| then Some(index - start - 1) else None
  {
    var quote: Option<char> := None;
    index := start + 1;
    ghost var text := source[start + 1..];
    while index < |source|
      invariant start < index <= |source|
      invariant TagLength(text, None)
                == match TagLength(source[index..], quote)
                   case None => None
                   case Some(n) => Some(n + (index - start - 1))
    {
      var c := source[index];
      assert source[index..][1..] == source[index + 1..];
      if quote.Some? {
        if c == quote.value {
          quote := None;
        }
      } else if IsQuote(c) {
        quote := Some(c);
      } else if c == '>' {
        return;
      }
      index := index + 1;
    }
    assert source[index..] == "";
  }

  /** `_scan_tag`: the raw tag body, the closing flag and the index after the '>'. */
  method ReadTag(source: string, start: nat) returns (r: Result<(string, bool, nat), Error>)
    requires start < |source|
    ensures r.Ok? ==> start < r.value.2 <= |source|
                      && ScanTag(source[start + 1..]) == Ok(Scanned(r.value.0, r.value.1, source[r.value.2..]))
    ensures r.Err? ==> ScanTag(source[start + 1..]) == Err(r.error)
  {
    hide TagLength, TrimLeft, StartsWith;
    var index := EndOfTag(source, start);
    if index == |source| {
      return Err(UnterminatedTag);
    }
    var raw := source[start + 1..index];
    TagSlices(source, start, index);
    if StartsWith(raw, '!') || StartsWith(raw, '?') {
      return Err(CommentOrInstruction);
    }
    r := Ok((raw, StartsWith(TrimLeft(raw), '/'), index + 1));
  }

  method SkipSpaces(text: string, from: nat) returns (index: nat)
    requires from <= |text|
    ensures from <= index <= |text| && TrimLeft(text[from..]) == text[index..]
    ensures index < |text| ==> !IsSpace(text[index])
  {
    index := from;
    while index < |text| && IsSpace(text[index])
      invariant from <= index <= |text| && TrimLeft(text[from..]) == TrimLeft(text[index..])
    {
      index := index + 1;
    }
  }

  /** A value from `index` on, and the index after it. */
  method ReadValue(text: string, index: nat) returns (r: Result<(string, nat), Error>)
    requires index < |text| && !IsSpace(text[index])
    ensures r.Ok? ==> index < r.value.1 <= |text| && Value(text[index..]) == Ok(Parsed(r.value.0, text[r.value.1..]))
    ensures r.Err? ==> Value(text[index..]) == Err(r.error)
  {
    ghost var rest := text[index..];
    if IsQuote(text[index]) {
      var quote := text[index];
      var length := Find(text[index + 1..], quote);
      if length == |text| - index - 1 {
        return Err(UnterminatedValue);
      }
      var end := index + 1 + length;
      assert rest[1..length + 1] == text[index + 1..end] && rest[length + 2..] == text[end + 1..];
      return Ok((text[index + 1..end], end + 1));
    }
    var end := index;
    while end < |text| && !IsSpace(text[end])
      invariant index <= end <= |text| && forall i :: index <= i < end ==> NotSpace(text[i])
    {
      end := end + 1;
    }
    SpanAt(NotSpace, rest, end - index);
    assert rest[..end - index] == text[index..end] && rest[end - index..] == text[end..];
    r := Ok((text[index..end], end));
  }

  /** One round of the attribute loop, from the attribute's name on. */
  method ReadAttribute(text: string, from: nat, attrs: seq<Attribute>) returns (r: Result<(seq<Attribute>, nat), Error>)
    requires from < |text|
    ensures r.Ok? ==>
            && from < r.value.1 <= |text|
            && OneAttribute(text[from..], attrs) == Ok(Parsed(r.value.0, text[r.value.1..]))
    ensures r.Err? ==> OneAttribute(text[from..], attrs) == Err(r.error)
  {
    hide Value, TrimLeft, NameLength, Lower, HasName;
    var length := NameLength(text[from..]);
    if length == 0 {
      return Err(AttributeName);
    }
    assert text[from..][..length] == text[from..from + length] && text[from..][length..] == text[from + length..];
    var name := Lower(text[from..from + length]);
    if HasName(attrs, name) {
      return Err(DuplicateAttribute);
    }
    var index := SkipSpaces(text, from + length);
    if index >= |text| || text[index] != '=' {
      return Err(AttributeWithoutValue);
    }
    index := SkipSpaces(text, index + 1);
    if index >= |text| {
      return Err(MissingValue);
    }
    var value := ReadValue(text, index);
    if value.Err? {
      return Err(value.error);
    }
    var more := Checked(attrs, name, value.value.0);
    if more.Err? {
      return Err(more.error);
    }
    r := Ok((more.value, value.value.1));
  }

  method ReadAttributes(text: string, from: nat) returns (r: Result<seq<Attribute>, Error>)
    requires from <= |text|
    ensures r == Attributes(text[from..], [])
  {
    hide OneAttribute, TrimLeft;
    var attrs: seq<Attribute> := [];
    var index := from;
    while index < |text|
      invariant from <= index <= |text|
      invariant Attributes(text[from..], []) == Attributes(text[index..], attrs)
      decreases |text| - index
    {
      var next := SkipSpaces(text, index);
      if next == |text| {
        return Ok(attrs);
      }
      var one := ReadAttribute(text, next, attrs);
      if one.Err? {
        return Err(one.error);
      }
      attrs, index := one.value.0, one.value.1;
    }
    assert text[index..] == "";
    r := Ok(attrs);
  }

  /** `_parse_attrs`. */
  method ReadElement(raw: string) returns (r: Result<Element, Error>)
    ensures r == ParseAttrs(raw)
  {
    hide Attributes, Trim, TrimLeft, TrimRight, NameLength, Lower;
    var text := Trim(raw);
    var closing := StartsWith(text, '/');
    if closing {
      text := TrimLeft(text[1..]);
    }
    var selfClosing := false;
    if !closing && EndsWith(text, '/') {
      selfClosing := true;
      text := TrimRight(text[..|text| - 1]);
    }
    var length := NameLength(text);
    if length == 0 {
      return Err(TagName);
    }
    var name := Lower(text[..length]);
    if closing {
      if Trim(text[length..]) != "" {
        return Err(ClosingAttributes);
      }
      return Ok(Element(name, [], false));
    }
    var attrs := ReadAttributes(text, length);
    if attrs.Err? {
      return Err(attrs.error);
    }
    r := Ok(Element(name, attrs.value, selfClosing));
  }

  /** The part of a round of `_parse_forest` that reads a tag. */
  method ReadNext(source: string, index: nat) returns (r: Result<Option<(Tag, nat)>, Error>)
    requires index <= |source|
    ensures r.Err? ==> NextTag(source[index..]) == Err(r.error)
    ensures r.Ok? && r.value.None? ==> NextTag(source[index..]) == Ok(Finished)
    ensures r.Ok? && r.value.Some? ==>
      && index < r.value.value.1 <= |source|
      && NextTag(source[index..]) == Ok(Found(r.value.value.0, source[r.value.value.1..]))
  {
    hide ScanTag, ParseAttrs, Trim;
    var rest := source[index..];
    var offset := Find(rest, '<');
    if offset == |rest| {
      if Trim(rest) != "" {
        return Err(TextOutsideRoot);
      }
      return Ok(None);
    }
    var opening := index + offset;
    assert rest[..offset] == source[index..opening] && rest[offset + 1..] == source[opening + 1..];
    if Trim(source[index..opening]) != "" {
      return Err(TextContent);
    }
    var scanned := ReadTag(source, opening);
    if scanned.Err? {
      return Err(scanned.error);
    }
    var element := ReadElement(scanned.value.0);
    if element.Err? {
      return Err(element.error);
    }
    var tag := Tag(scanned.value.1, element.value.name, element.value.attrs, element.value.selfClosing);
    r := Ok(Some((tag, scanned.value.2)));
  }

  /** Adds a finished element to the innermost open one, or to the roots. */
  method Append(stack: seq<Frame>, roots: seq<Node>, ghost nodes: nat, node: Node)
      returns (stack': seq<Frame>, roots': seq<Node>)
    ensures Building(stack', roots', nodes) == Add(Building(stack, roots, nodes), [node])
  {
    stack', roots' := stack, roots;
    if stack != [] {
      var top := stack[|stack| - 1];
      stack' := stack[|stack| - 1 := top.(children := top.children + [node])];
    } else {
      roots' := roots + [node];
    }
  }

  /** What a round of `_parse_forest` does with the tag it has read. */
  method Place(stack: seq<Frame>, roots: seq<Node>, nodes: nat, tag: Tag)
    returns (error: Option<Error>, stack': seq<Frame>, roots': seq<Node>, nodes': nat)
    ensures error.Some? ==> Apply(Building(stack, roots, nodes), tag) == Err(error.value)
    ensures error.None? ==> Apply(Building(stack, roots, nodes), tag) == Ok(Building(stack', roots', nodes'))
  {
    hide Add;
    error, stack', roots', nodes' := None, stack, roots, nodes;
    if tag.closing {
      if stack == [] || stack[|stack| - 1].name != tag.name {
        error := Some(ClosingMismatch);
        return;
      }
      var top := stack[|stack| - 1];
      stack' := stack[..|stack| - 1];
      stack', roots' := Append(stack', roots, nodes, Node(top.name, top.attrs, top.children));
    } else {
      nodes' := nodes + 1;
      if nodes' > MAX_NODES {
        error := Some(NodeLimit);
        return;
      }
      if |stack| >= MAX_DEPTH {
        error := Some(DepthLimit);
        return;
      }
      if tag.selfClosing {
        stack', roots' := Append(stack, roots, nodes', Node(tag.name, tag.attrs, []));
      } else {
        stack' := stack + [Frame(tag.name, tag.attrs, [])];
      }
    }
  }

  /** `_parse_forest`. */
  method ParseForest(source: string) returns (r: Result<seq<Node>, Error>)
    ensures r == Parse(source)
  {
    hide NextTag, HasControl, Utf8Length, Apply;
    if Utf8Length(source) > MAX_BLOB_BYTES {
      return Err(SizeLimit);
    }
    if HasControl(source) {
      return Err(ControlCharacter);
    }
    var stack: seq<Frame> := [];
    var roots: seq<Node> := [];
    var nodes := 0;
    var index := 0;
    assert source[0..] == source;
    while index < |source|
      invariant 0 <= index <= |source|
      invariant Parse(source) == ParseFrom(source[index..], Building(stack, roots, nodes))
      decreases |source| - index
    {
      var next := ReadNext(source, index);
      if next.Err? {
        return Err(next.error);
      }
      if next.value.None? {
        break;
      }
      var error: Option<Error>;
      error, stack, roots, nodes := Place(stack, roots, nodes, next.value.value.0);
      if error.Some? {
        return Err(error.value);
      }
      index := next.value.value.1;
    }
    assert index == |source| ==> source[index..] == "";
    NothingIsFinished();
    if stack != [] || roots == [] {
      return Err(RootIncomplete);
    }
    r := Ok(roots);
  }
}
