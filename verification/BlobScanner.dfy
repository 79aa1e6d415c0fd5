/** Reading one tag of a kill blob: the quote-aware search for its end and the
    attribute parser.
  */
module BlobScanner {
  import opened BlobText
  import opened Options

  const MAX_ATTRIBUTES: nat := 64
  const MAX_TEXT: nat := 255

  datatype Error =
    | SizeLimit | ControlCharacter | UnterminatedTag | CommentOrInstruction
    | TagName | ClosingAttributes | AttributeName | DuplicateAttribute | AttributeWithoutValue | MissingValue
    | UnterminatedValue | ControlInValue | EntityInValue | ValueTooLong | AttributeLimit
    | TextOutsideRoot | TextContent | ClosingMismatch | NodeLimit | DepthLimit | RootIncomplete

  datatype Attribute = Attribute(name: string, value: string)

  datatype Tag = Tag(closing: bool, name: string, attrs: seq<Attribute>, selfClosing: bool)

  /** The characters before the '>' that ends a tag, reading `s` with that quote open. */
  function TagLength(s: string, quote: Option<char>): (r: Option<nat>)
    ensures r.Some? ==> r.value < |s| && s[r.value] == '>'
  {
    if s == "" then None
    else if quote == None && s[0] == '>' then Some(0)
    else
      match TagLength(s[1..], QuoteAfter(s[0], quote))
      case None => None
      case Some(n) => Some(n + 1)
  }

  function QuoteAfter(c: char, quote: Option<char>): Option<char>
  {
    if quote.Some? then (if c == quote.value then None else quote)
    else if IsQuote(c) then Some(c) else None
  }

  datatype Scanned = Scanned(raw: string, closing: bool, rest: string)

  /** `_scan_tag`, on the text after the '<'. */
  function ScanTag(s: string): (r: Result<Scanned, Error>)
    ensures r.Ok? ==> |r.value.rest| < |s|
  {
    match TagLength(s, None)
    case None => Err(UnterminatedTag)
    case Some(n) =>
      var raw := s[..n];
      if StartsWith(raw, '!') || StartsWith(raw, '?') then Err(CommentOrInstruction)
      else Ok(Scanned(raw, StartsWith(TrimLeft(raw), '/'), s[n + 1..]))
  }

  datatype Parsed<T> = Parsed(result: T, rest: string)

  /** An attribute's value, quoted or up to the next space. */
  function Value(s: string): (r: Result<Parsed<string>, Error>)
    requires s != ""
    ensures r.Ok? ==> |r.value.rest| <= |s|
  {
    if IsQuote(s[0]) then
      var n := Find(s[1..], s[0]);
      if n == |s| - 1 then Err(UnterminatedValue) else Ok(Parsed(s[1..n + 1], s[n + 2..]))
    else
      var n := Span(NotSpace, s);
      Ok(Parsed(s[..n], s[n..]))
  }

  /** A value the parser lets through. */
  predicate CleanValue(value: string)
  {
    !HasControl(value) && !HasEntity(value) && |value| <= MAX_TEXT
  }

  function Checked(attrs: seq<Attribute>, name: string, value: string): Result<seq<Attribute>, Error>
  {
    if HasControl(value) then Err(ControlInValue)
    else if HasEntity(value) then Err(EntityInValue)
    else if |value| > MAX_TEXT then Err(ValueTooLong)
    else if |attrs| >= MAX_ATTRIBUTES then Err(AttributeLimit)
    else Ok(attrs + [Attribute(name, value)])
  }

  predicate HasName(attrs: seq<Attribute>, name: string)
  {
    exists i :: 0 <= i < |attrs| && attrs[i].name == name
  }

  /** One attribute, from its name on. */
  function OneAttribute(s: string, attrs: seq<Attribute>): (r: Result<Parsed<seq<Attribute>>, Error>)
    ensures r.Ok? ==> |r.value.rest| < |s|
  {
    var n := NameLength(s);
    if n == 0 then Err(AttributeName)
    else if HasName(attrs, Lower(s[..n])) then Err(DuplicateAttribute)
    else
      var afterName := TrimLeft(s[n..]);
      if !StartsWith(afterName, '=') then Err(AttributeWithoutValue)
      else
        var text := TrimLeft(afterName[1..]);
        if text == "" then Err(MissingValue)
        else
          match Value(text)
          case Err(e) => Err(e)
          case Ok(value) =>
            match Checked(attrs, Lower(s[..n]), value.result)
            case Err(e) => Err(e)
            case Ok(more) => Ok(Parsed(more, value.rest))
  }

  /** The attribute loop of `_parse_attrs`. */
  function Attributes(s: string, attrs: seq<Attribute>): Result<seq<Attribute>, Error>
    decreases |s|
  {
    var text := TrimLeft(s);
    if text == "" then Ok(attrs)
    else
      match OneAttribute(text, attrs)
      case Err(e) => Err(e)
      case Ok(more) => Attributes(more.rest, more.result)
  }

  datatype Element = Element(name: string, attrs: seq<Attribute>, selfClosing: bool)

  /** `_parse_attrs`. */
  function ParseAttrs(raw: string): Result<Element, Error>
  {
    var text := Trim(raw);
    if StartsWith(text, '/') then
      var inner := TrimLeft(text[1..]);
      var n := NameLength(inner);
      if n == 0 then Err(TagName)
      else if Trim(inner[n..]) != "" then Err(ClosingAttributes)
      else Ok(Element(Lower(inner[..n]), [], false))
    else
      var selfClosing := EndsWith(text, '/');
      var inner := if selfClosing then TrimRight(text[..|text| - 1]) else text;
      var n := NameLength(inner);
      if n == 0 then Err(TagName)
      else
        match Attributes(inner[n..], [])
        case Err(e) => Err(e)
        case Ok(attrs) => Ok(Element(Lower(inner[..n]), attrs, selfClosing))
  }

  datatype Next = Finished | Found(tag: Tag, rest: string)

  /** One round of the loop of `_parse_forest`, up to the tag it has read. */
  function NextTag(s: string): (r: Result<Next, Error>)
    ensures r.Ok? && r.value.Found? ==> |r.value.rest| < |s|
  {
    var opening := Find(s, '<');
    if opening == |s| then
      if Trim(s) != "" then Err(TextOutsideRoot) else Ok(Finished)
    else if Trim(s[..opening]) != "" then Err(TextContent)
    else
      match ScanTag(s[opening + 1..])
      case Err(e) => Err(e)
      case Ok(scanned) =>
        match ParseAttrs(scanned.raw)
        case Err(e) => Err(e)
        case Ok(element) =>
          Ok(Found(Tag(scanned.closing, element.name, element.attrs, element.selfClosing), scanned.rest))
  }

  /** Attributes within the limits: distinct lower-case names and clean values. */
  ghost predicate LegalAttrs(attrs: seq<Attribute>)
  {
    && |attrs| <= MAX_ATTRIBUTES
    && (forall i :: 0 <= i < |attrs| ==> IsName(attrs[i].name) && CleanValue(attrs[i].value))
    && (forall i, j :: 0 <= i < j < |attrs| ==> attrs[i].name != attrs[j].name)
  }

  ghost predicate LegalTag(tag: Tag)
  {
    && IsName(tag.name) && LegalAttrs(tag.attrs)
    && (tag.closing ==> tag.attrs == [] && !tag.selfClosing)
  }

  lemma OneAttributeIsLegal(s: string, attrs: seq<Attribute>)
    requires LegalAttrs(attrs) && OneAttribute(s, attrs).Ok?
    ensures LegalAttrs(OneAttribute(s, attrs).value.result)
  {
    LoweredIsName(s);
  }

  lemma {:induction false} AttributesAreLegal(s: string, attrs: seq<Attribute>)
    requires LegalAttrs(attrs) && Attributes(s, attrs).Ok?
    ensures LegalAttrs(Attributes(s, attrs).value)
    decreases |s|
  {
    var text := TrimLeft(s);
    if text != "" {
      OneAttributeIsLegal(text, attrs);
      var more := OneAttribute(text, attrs).value;
      AttributesAreLegal(more.rest, more.result);
    }
  }

  /** Every tag that is read is within the limits. */
  lemma TagsAreLegal(s: string)
    requires NextTag(s).Ok? && NextTag(s).value.Found?
    ensures LegalTag(NextTag(s).value.tag)
  {
    var scanned := ScanTag(s[Find(s, '<') + 1..]).value;
    var raw := scanned.raw;
    var text := Trim(raw);
    TrimKeepsStart(TrimLeft(raw), '/');
    if StartsWith(text, '/') {
      LoweredIsName(TrimLeft(text[1..]));
    } else {
      var inner := if EndsWith(text, '/') then TrimRight(text[..|text| - 1]) else text;
      LoweredIsName(inner);
      AttributesAreLegal(inner[NameLength(inner)..], []);
    }
  }
}
