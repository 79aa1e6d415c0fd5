/** The character classes and string operations the kill blob parser is written with: white
    space as `str.isspace` knows it, the letters of a name, control characters, entities,
    trimming on either side, lower case for names and the length in UTF-8.
  */
module BlobText {

  /** `str.isspace` on one character. */
  predicate IsSpace(c: char)
  {
    || '\t' <= c <= '\r' || '\U{1C}' <= c <= ' ' || c == '\U{85}' || c == '\U{A0}' || c == '\U{1680}'
    || '\U{2000}' <= c <= '\U{200A}' || c == '\U{2028}' || c == '\U{2029}' || c == '\U{202F}'
    || c == '\U{205F}' || c == '\U{3000}'
  }

  predicate IsQuote(c: char)
  {
    c == '\'' || c == '"'
  }

  /** The characters that `_CONTROL` matches. */
  predicate IsControl(c: char)
  {
    '\0' <= c <= '\U{8}' || c == '\U{B}' || c == '\U{C}' || '\U{E}' <= c <= '\U{1F}' || c == '\U{7F}'
  }

  predicate IsUpper(c: char)
  {
    'A' <= c <= 'Z'
  }

  predicate StartsName(c: char)
  {
    IsUpper(c) || 'a' <= c <= 'z' || c == '_'
  }

  predicate ContinuesName(c: char)
  {
    StartsName(c) || '0' <= c <= '9' || c == '.' || c == ':' || c == '-'
  }

  /** `str.lower` on the characters of a name. */
  function LowerChar(c: char): char
  {
    if IsUpper(c) then (c as int + 32) as char else c
  }

  function Lower(s: string): (r: string)
    ensures |r| == |s|
    ensures forall i :: 0 <= i < |s| ==> r[i] == LowerChar(s[i])
  {
    if s == "" then "" else [LowerChar(s[0])] + Lower(s[1..])
  }

  predicate HasControl(s: string)
  {
    exists i :: 0 <= i < |s| && IsControl(s[i])
  }

  /** What may stand between the '&' and the ';' that `_ENTITY` matches. */
  predicate InEntity(c: char)
  {
    c != '<' && c != '>' && c != ';' && c != '\r' && c != '\n'
  }

  predicate EntityAt(s: string, i: nat, j: nat)
  {
    i + 2 <= j <= i + 65 && j < |s| && s[i] == '&' && s[j] == ';' && forall k :: i < k < j ==> InEntity(s[k])
  }

  predicate HasEntity(s: string)
  {
    exists i: nat, j: nat :: 0 <= i < |s| && 0 <= j < |s| && EntityAt(s, i, j)
  }

  /** Bytes of the UTF-8 encoding, section 3 of RFC 3629. */
  function Utf8Length(s: string): nat
  {
    if s == "" then 0
    else
      var bytes := if s[0] < '\U{80}' then 1 else if s[0] < '\U{800}' then 2 else if s[0] < '\U{10000}' then 3 else 4;
      bytes + Utf8Length(s[1..])
  }

  /** How many characters satisfy `p` from the start. */
  function Span(p: char -> bool, s: string): (n: nat)
    ensures n <= |s| && (n < |s| ==> !p(s[n]))
    ensures forall i :: 0 <= i < n ==> p(s[i])
  {
    if s != "" && p(s[0]) then 1 + Span(p, s[1..]) else 0
  }

  /** `str.find` of one character, with the length for "not found". */
  function Find(s: string, c: char): (n: nat)
    ensures n <= |s| && (n < |s| ==> s[n] == c)
    ensures forall i :: 0 <= i < n ==> s[i] != c
  {
    if s == "" || s[0] == c then 0 else 1 + Find(s[1..], c)
  }

  predicate NotSpace(c: char)
  {
    !IsSpace(c)
  }

  /** The length of the name that `_NAME.match` finds at the start, 0 for none. */
  function NameLength(s: string): (n: nat)
    ensures n <= |s|
  {
    if s != "" && StartsName(s[0]) then 1 + Span(ContinuesName, s[1..]) else 0
  }

  /** A name as the parser returns it. */
  predicate IsName(s: string)
  {
    && s != "" && StartsName(s[0]) && (forall i :: 0 <= i < |s| ==> ContinuesName(s[i]) && !IsUpper(s[i]))
  }

  /** `str.lstrip`. */
  function TrimLeft(s: string): (r: string)
    ensures |r| <= |s| && (r != "" ==> NotSpace(r[0]))
  {
    if s != "" && IsSpace(s[0]) then TrimLeft(s[1..]) else s
  }

  /** `str.rstrip`. */
  function TrimRight(s: string): (r: string)
    ensures |r| <= |s|
  {
    if s != "" && IsSpace(s[|s| - 1]) then TrimRight(s[..|s| - 1]) else s
  }

  /** `str.strip`. */
  function Trim(s: string): (r: string)
    ensures |r| <= |s|
  {
    TrimRight(TrimLeft(s))
  }

  predicate StartsWith(s: string, c: char)
  {
    s != "" && s[0] == c
  }

  predicate EndsWith(s: string, c: char)
  {
    s != "" && s[|s| - 1] == c
  }

  lemma FindAt(s: string, c: char, n: nat)
    requires n < |s| && s[n] == c && forall i :: 0 <= i < n ==> s[i] != c
    ensures Find(s, c) == n
  {
    var f := Find(s, c);
    assert f <= n;
  }

  lemma SpanAt(p: char -> bool, s: string, n: nat)
    requires n <= |s| && (forall i :: 0 <= i < n ==> p(s[i])) && (n < |s| ==> !p(s[n]))
    ensures Span(p, s) == n
  {
    var f := Span(p, s);
  }

  lemma LowerKeepsNames(name: string)
    requires IsName(name)
    ensures Lower(name) == name
  {
    assert forall i :: 0 <= i < |name| ==> Lower(name)[i] == name[i];
  }

  /** Whatever name is read, its lower-case form is a name of the forest. */
  lemma LoweredIsName(s: string)
    requires NameLength(s) > 0
    ensures IsName(Lower(s[..NameLength(s)]))
  {
    var n := NameLength(s);
    var name := s[..n];
    assert n == 1 + Span(ContinuesName, s[1..]);
    forall i | 0 <= i < n
      ensures ContinuesName(Lower(name)[i]) && !IsUpper(Lower(name)[i])
    {
      assert Lower(name)[i] == LowerChar(name[i]);
      assert i > 0 ==> s[i] == s[1..][i - 1];
    }
  }

  lemma {:induction false} Utf8LengthConcat(s: string, t: string)
    ensures Utf8Length(s + t) == Utf8Length(s) + Utf8Length(t)
  {
    if s == "" {
      assert s + t == t;
    } else {
      assert (s + t)[1..] == s[1..] + t;
      Utf8LengthConcat(s[1..], t);
    }
  }

  /** The closing flag of the tag scanner and that of the attribute parser agree. */
  lemma {:induction false} TrimKeepsStart(s: string, c: char)
    requires !IsSpace(c)
    ensures StartsWith(TrimRight(s), c) <==> StartsWith(s, c)
  {
    if s != "" && IsSpace(s[|s| - 1]) {
      TrimKeepsStart(s[..|s| - 1], c);
    }
  }
}
