/** Taking the text of an element out of a document by searching for its tags (src/adapters/didl.rs),
    and what that search finds in a document given as tokens. */
module DidlElements {
  import opened Zones

  // ---------------------------------------------------------------------------
  // The search
  // ---------------------------------------------------------------------------

  /** Where a pattern first occurs. */
  function Find(s: string, pattern: string): (at: Option<nat>)
    ensures at.Some? ==> at.value + |pattern| <= |s| && s[at.value..at.value + |pattern|] == pattern
  {
    if pattern <= s then Some(0)
    else if s == [] then None
    else
      match Find(s[1..], pattern)
      case Some(at) => Some(at + 1)
      case None => None
  }

  function OpenOf(tag: string): string { "<" + tag }

  function EndOf(tag: string): string { "</" + tag + ">" }

  /** What the text right after an occurrence of the tag's opening says. */
  datatype After = Content(start: nat) | Nothing | Resume(at: nat)

  /** Whether this is an opening tag of exactly this name, with or without attributes; a self-closing
      tag and a longer name are passed over. */
  function Inspect(rest: string, isSpace: char -> bool): (r: After)
    ensures r.Content? ==> r.start <= |rest|
    ensures r.Resume? ==> r.at <= |rest|
  {
    if rest == [] then Resume(0)
    else if rest[0] == '>' then Content(1)
    else if isSpace(rest[0]) then
      match Find(rest, ">")
      case None => Nothing
      case Some(close) =>
        if close > 0 && rest[close - 1] == '/' then Resume(close + 1) else Content(close + 1)
    else Resume(0)
  }

  /** The text up to the end tag. */
  function UpTo(s: string, endTag: string): Option<string> {
    match Find(s, endTag)
    case Some(end) => Some(s[..end])
    case None => None
  }

  /** What the search yields, as a function of the text that is left. */
  function Scan(s: string, tag: string, isSpace: char -> bool): Option<string>
    decreases |s|, 0
  {
    match Find(s, OpenOf(tag))
    case None => None
    case Some(open) => ScanAfter(s[open + 1 + |tag|..], tag, isSpace)
  }

  /** The same from right after an occurrence of the tag's opening. */
  function ScanAfter(rest: string, tag: string, isSpace: char -> bool): Option<string>
    decreases |rest|, 1
  {
    match Inspect(rest, isSpace)
    case Content(start) => UpTo(rest[start..], EndOf(tag))
    case Nothing => None
    case Resume(at) => Scan(rest[at..], tag, isSpace)
  }

  lemma {:induction false} ScanFrom(xml: string, from: nat, tag: string, isSpace: char -> bool)
    requires from <= |xml|
    ensures match Find(xml[from..], OpenOf(tag))
            case None => Scan(xml[from..], tag, isSpace) == None
            case Some(rel) =>
              && from + rel + 1 + |tag| <= |xml|
              && Scan(xml[from..], tag, isSpace) == ScanAfter(xml[from + rel + 1 + |tag|..], tag, isSpace)
  {
    hide Find, ScanAfter;
    match Find(xml[from..], OpenOf(tag))
    case None =>
    case Some(rel) => assert xml[from..][rel + 1 + |tag|..] == xml[from + rel + 1 + |tag|..];
  }

  /** The three things that may follow an occurrence at `at`. */
  lemma {:induction false} ScanAfterAt(xml: string, at: nat, tag: string, isSpace: char -> bool)
    requires at <= |xml|
    ensures var rest, r := xml[at..], ScanAfter(xml[at..], tag, isSpace);
            if rest != [] && rest[0] == '>' then r == UpTo(xml[at + 1..], EndOf(tag))
            else if rest != [] && isSpace(rest[0]) then
              match Find(rest, ">")
              case None => r == None
              case Some(close) =>
                && at + close + 1 <= |xml|
                && r == if close > 0 && rest[close - 1] == '/' then Scan(xml[at + close + 1..], tag, isSpace)
                        else UpTo(xml[at + close + 1..], EndOf(tag))
            else r == Scan(rest, tag, isSpace)
  {
    hide Find, Scan, UpTo;
    var rest := xml[at..];
    assert rest[0..] == rest;
    if rest != [] {
      assert rest[1..] == xml[at + 1..];
      match Find(rest, ">")
      case None =>
      case Some(close) => assert rest[close + 1..] == xml[at + close + 1..];
    }
  }

  /** The loop as written, moving an index through the document. */
  method ExtractExact(xml: string, tag: string, isSpace: char -> bool) returns (value: Option<string>)
    ensures value == Scan(xml, tag, isSpace)
  {
    hide Find, EndOf, Scan, ScanAfter;
    var endTag := EndOf(tag);
    var from := 0;
    assert xml[0..] == xml;
    while true
      invariant from <= |xml|
      invariant Scan(xml, tag, isSpace) == Scan(xml[from..], tag, isSpace)
      decreases |xml| - from
    {
      ScanFrom(xml, from, tag, isSpace);
      var rel := Find(xml[from..], OpenOf(tag));
      if rel.None? {
        return None;
      }
      var afterName := from + rel.value + 1 + |tag|;
      ScanAfterAt(xml, afterName, tag, isSpace);
      var rest := xml[afterName..];
      if rest != [] && rest[0] == '>' {
        var valueStart := afterName + 1;
        var end := Find(xml[valueStart..], endTag);
        if end.None? {
          return None;
        }
        return Some(xml[valueStart..][..end.value]);
      } else if rest != [] && isSpace(rest[0]) {
        var closeRel := Find(rest, ">");
        if closeRel.None? {
          return None;
        }
        if closeRel.value > 0 && rest[closeRel.value - 1] == '/' {
          from := afterName + closeRel.value + 1;
        } else {
          var valueStart := afterName + closeRel.value + 1;
          var end := Find(xml[valueStart..], endTag);
          if end.None? {
            return None;
          }
          return Some(xml[valueStart..][..end.value]);
        }
      } else {
        from := afterName;
      }
    }
  }

  // ---------------------------------------------------------------------------
  // Documents as tokens
  // ---------------------------------------------------------------------------

  datatype Token =
    | Text(text: string)
    | Open(name: string, attributes: string)
    | SelfClosing(name: string, attributes: string)
    | Close(name: string, space: string)
      /** A comment, a processing instruction or a document type. */
    | Declaration(body: string)

  function Written(token: Token): string {
    match token
    case Text(text) => text
    case Open(name, attributes) => "<" + name + attributes + ">"
    case SelfClosing(name, attributes) => "<" + name + attributes + "/>"
    case Close(name, space) => "</" + name + space + ">"
    case Declaration(body) => "<" + body + ">"
  }

  function Document(tokens: seq<Token>): string {
    if tokens == [] then [] else Written(tokens[0]) + Document(tokens[1..])
  }

  /** A name has no character that ends a name. */
  predicate IsName(name: string, isSpace: char -> bool) {
    && name != []
    && forall c :: c in name ==> c != '<' && c != '>' && c != '/' && c != '!' && c != '?' && !isSpace(c)
  }

  /** Attributes are set off by white space and contain no opening angle bracket, as XML has it. */
  predicate AreAttributes(attributes: string, isSpace: char -> bool) {
    '<' !in attributes && (attributes != [] ==> isSpace(attributes[0]))
  }

  predicate IsToken(token: Token, isSpace: char -> bool) {
    match token
    case Text(text) => '<' !in text
    case Open(name, attributes) =>
      && IsName(name, isSpace) && AreAttributes(attributes, isSpace)
      && (attributes != [] ==> attributes[|attributes| - 1] != '/')
    case SelfClosing(name, attributes) => IsName(name, isSpace) && AreAttributes(attributes, isSpace)
    case Close(name, space) => IsName(name, isSpace) && forall c :: c in space ==> isSpace(c)
    case Declaration(body) => body != [] && (body[0] == '!' || body[0] == '?') && '<' !in body
  }

  /** The tags of this name have no closing angle bracket among their attributes; other tags may. */
  predicate ClosesOnce(token: Token, tag: string) {
    (token.Open? || token.SelfClosing?) && token.name == tag ==> '>' !in token.attributes
  }

  predicate CloseOnce(tokens: seq<Token>, tag: string) {
    forall token :: token in tokens ==> ClosesOnce(token, tag)
  }

  predicate AreTokens(tokens: seq<Token>, isSpace: char -> bool) {
    forall token :: token in tokens ==> IsToken(token, isSpace)
  }

  /** White space is none of the characters that delimit tags. */
  predicate IsSpacing(isSpace: char -> bool) {
    !isSpace('<') && !isSpace('>') && !isSpace('/')
  }

  /** Everything before the first end tag of this name, if there is one. */
  function Within(tokens: seq<Token>, tag: string): Option<seq<Token>> {
    if tokens == [] then None
    else if tokens[0].Close? && tokens[0].name == tag then Some([])
    else
      match Within(tokens[1..], tag)
      case Some(rest) => Some([tokens[0]] + rest)
      case None => None
  }

  /** The text of the first element of exactly this name: what is written between its opening tag and the
      first end tag of the name. Self-closing elements and other names are passed over. */
  function ElementText(tokens: seq<Token>, tag: string): Option<string> {
    if tokens == [] then None
    else if tokens[0].Open? && tokens[0].name == tag then
      match Within(tokens[1..], tag)
      case Some(inside) => Some(Document(inside))
      case None => None
    else ElementText(tokens[1..], tag)
  }

  /** Everything before the first end tag of this name that has no white space before its bracket. */
  function Inside(tokens: seq<Token>, tag: string): Option<seq<Token>> {
    if tokens == [] then None
    else if tokens[0] == Close(tag, "") then Some([])
    else
      match Inside(tokens[1..], tag)
      case Some(rest) => Some([tokens[0]] + rest)
      case None => None
  }

  /** What the search takes for the element's text: it does not know an end tag with white space. */
  function FoundText(tokens: seq<Token>, tag: string): Option<string> {
    if tokens == [] then None
    else if tokens[0].Open? && tokens[0].name == tag then
      match Inside(tokens[1..], tag)
      case Some(inside) => Some(Document(inside))
      case None => None
    else FoundText(tokens[1..], tag)
  }

  /** The first end tag of this name has no white space, or there is none. */
  predicate EndsPlainly(tokens: seq<Token>, tag: string) {
    tokens == []
    || (if tokens[0].Close? && tokens[0].name == tag then tokens[0].space == [] else EndsPlainly(tokens[1..], tag))
  }

  /** The first element of this name is ended by a tag without white space, or not at all. */
  predicate ElementEndsPlainly(tokens: seq<Token>, tag: string) {
    tokens == []
    || (if tokens[0].Open? && tokens[0].name == tag then EndsPlainly(tokens[1..], tag)
        else ElementEndsPlainly(tokens[1..], tag))
  }

  // ---------------------------------------------------------------------------
  // The search finds the element
  // ---------------------------------------------------------------------------

  /** Text without the pattern's first character cannot hold the start of the pattern. */
  lemma {:induction false} FindSkips(w: string, s: string, pattern: string)
    requires pattern != [] && pattern[0] !in w
    ensures Find(w + s, pattern)
            == match Find(s, pattern) case Some(at) => Some(|w| + at) case None => None
  {
    hide Find;
    if w == [] {
      assert w + s == s;
    } else {
      assert (w + s)[0] == w[0] && w[0] in w;
      assert (w + s)[1..] == w[1..] + s;
      FindStep(w + s, pattern);
      FindSkips(w[1..], s, pattern);
    }
  }

  lemma {:induction false} FindStep(s: string, pattern: string)
    requires s != [] && !(pattern <= s)
    ensures Find(s, pattern)
            == match Find(s[1..], pattern) case Some(at) => Some(at + 1) case None => None
  {
  }

  lemma {:induction false} ScanSkips(w: string, s: string, tag: string, isSpace: char -> bool)
    requires '<' !in w
    ensures Scan(w + s, tag, isSpace) == Scan(s, tag, isSpace)
  {
    hide ScanAfter, Find;
    FindSkips(w, s, OpenOf(tag));
    match Find(s, OpenOf(tag))
    case None =>
    case Some(open) =>
      assert (w + s)[|w| + open + 1 + |tag|..] == s[open + 1 + |tag|..];
  }

  /** A tag character that is passed over. */
  lemma {:induction false} ScanPasses(w: string, s: string, tag: string, isSpace: char -> bool)
    requires w != [] && w[0] == '<' && '<' !in w[1..]
    requires !(OpenOf(tag) <= w + s)
    ensures Scan(w + s, tag, isSpace) == Scan(s, tag, isSpace)
  {
    hide ScanAfter, Find;
    var t := w[1..] + s;
    assert (w + s)[1..] == t;
    FindStep(w + s, OpenOf(tag));
    match Find(t, OpenOf(tag)) {
      case None =>
      case Some(open) =>
        assert (w + s)[open + 1 + 1 + |tag|..] == t[open + 1 + |tag|..];
    }
    assert Scan(w + s, tag, isSpace) == Scan(t, tag, isSpace);
    ScanSkips(w[1..], s, tag, isSpace);
  }

  /** A name cannot run into what ends another name. */
  lemma {:induction false} NameEnds(tag: string, name: string, s: string, isSpace: char -> bool)
    requires IsName(tag, isSpace)
    requires s != [] && (s[0] == '>' || s[0] == '/' || isSpace(s[0]))
    requires tag <= name + s
    ensures tag <= name
  {
    assert (name + s)[|name|] == s[0];
    forall i | 0 <= i < |tag| ensures tag[i] == (name + s)[i] && tag[i] in tag {
    }
    assert |tag| <= |name|;
    assert tag == (name + s)[..|tag|] == name[..|tag|];
  }

  /** A closing tag, an opening tag of a name that does not start with ours, and text open nothing. */
  lemma {:induction false} OpensElsewhere(w: string, name: string, tail: string, s: string, tag: string,
                                          isSpace: char -> bool)
    requires IsName(tag, isSpace) && IsName(name, isSpace) && '<' !in tail
    requires tail != [] && (tail[0] == '>' || tail[0] == '/' || isSpace(tail[0]))
    requires !(tag <= name)
    requires w == "<" + name + tail
    ensures Scan(w + s, tag, isSpace) == Scan(s, tag, isSpace)
  {
    assert w + s == "<" + (name + (tail + s));
    if OpenOf(tag) <= w + s {
      PrefixTail(OpenOf(tag), '<', name + (tail + s));
      NameEnds(tag, name, tail + s, isSpace);
      assert false;
    }
    assert w[1..] == name + tail;
    ScanPasses(w, s, tag, isSpace);
  }

  lemma {:induction false} PrefixTail(w: string, c: char, s: string)
    requires w != []
    ensures w <= [c] + s <==> w[0] == c && w[1..] <= s
  {
    assert w == [w[0]] + w[1..];
    if w <= [c] + s {
      assert w[1..] == ([c] + s)[..|w|][1..] == s[..|w| - 1];
    }
  }

  /** What the search does at an opening of ours. */
  lemma {:induction false} ScanAtOpening(after: string, tag: string, isSpace: char -> bool)
    ensures Scan(OpenOf(tag) + after, tag, isSpace) == ScanAfter(after, tag, isSpace)
  {
    assert (OpenOf(tag) + after)[1 + |tag|..] == after;
  }

  /** A longer name, or our own without attributes closed at once, is resumed right after the name. */
  lemma {:induction false} LongerName(w: string, after: string, s: string, tag: string, isSpace: char -> bool)
    requires after != [] && after[0] != '>' && !isSpace(after[0]) && '<' !in after
    requires w == OpenOf(tag) + after
    ensures Scan(w + s, tag, isSpace) == Scan(s, tag, isSpace)
  {
    assert w + s == OpenOf(tag) + (after + s);
    ScanAtOpening(after + s, tag, isSpace);
    assert (after + s)[0..] == after + s;
    ScanSkips(after, s, tag, isSpace);
  }

  lemma {:induction false} FindAngle(w: string, s: string)
    requires '>' !in w
    ensures Find(w + ">" + s, ">") == Some(|w|)
  {
    assert w + ">" + s == w + (">" + s);
    FindSkips(w, ">" + s, ">");
  }

  /** Passing over any token that does not open our element. */
  lemma {:induction false} ScanToken(token: Token, s: string, tag: string, isSpace: char -> bool)
    requires IsSpacing(isSpace) && IsName(tag, isSpace) && IsToken(token, isSpace)
    requires !(token.Open? && token.name == tag) && ClosesOnce(token, tag)
    ensures Scan(Written(token) + s, tag, isSpace) == Scan(s, tag, isSpace)
  {
    hide Scan, IsName;
    match token
    case Text(text) => ScanSkips(text, s, tag, isSpace);
    case Close(name, space) => ScanClose(name, space, s, tag, isSpace);
    case Declaration(body) =>
      ScanOther(body + ">", s, tag, isSpace);
      assert Written(token) == "<" + (body + ">");
    case Open(name, attributes) =>
      StartTag(name, attributes + ">", s, tag, isSpace);
      assert Written(token) == "<" + name + (attributes + ">");
    case SelfClosing(name, attributes) =>
      ScanSelfClosing(name, attributes, s, tag, isSpace);
  }

  lemma {:induction false} ScanClose(name: string, space: string, s: string, tag: string, isSpace: char -> bool)
    requires IsSpacing(isSpace) && IsName(tag, isSpace) && IsToken(Close(name, space), isSpace)
    ensures Scan(Written(Close(name, space)) + s, tag, isSpace) == Scan(s, tag, isSpace)
  {
    hide Scan;
    NoAngleInSpace(space, isSpace);
    assert Written(Close(name, space)) == "<" + ("/" + name + space + ">");
    ScanOther("/" + name + space + ">", s, tag, isSpace);
  }

  lemma {:induction false} ScanSelfClosing(name: string, attributes: string, s: string, tag: string,
                                           isSpace: char -> bool)
    requires IsSpacing(isSpace) && IsName(tag, isSpace) && IsToken(SelfClosing(name, attributes), isSpace)
    requires ClosesOnce(SelfClosing(name, attributes), tag)
    ensures Scan(Written(SelfClosing(name, attributes)) + s, tag, isSpace) == Scan(s, tag, isSpace)
  {
    hide Scan, IsName;
    assert Written(SelfClosing(name, attributes)) == "<" + name + (attributes + "/>");
    if name == tag {
      SelfClosed(attributes, s, tag, isSpace);
    } else {
      StartTag(name, attributes + "/>", s, tag, isSpace);
    }
  }

  lemma {:induction false} NoAngleInSpace(space: string, isSpace: char -> bool)
    requires IsSpacing(isSpace) && forall c :: c in space ==> isSpace(c)
    ensures '<' !in space && '>' !in space
  {
  }

  /** A tag that does not start with a name opens nothing. */
  lemma {:induction false} ScanOther(tail: string, s: string, tag: string, isSpace: char -> bool)
    requires IsName(tag, isSpace)
    requires tail != [] && (tail[0] == '/' || tail[0] == '!' || tail[0] == '?') && '<' !in tail
    ensures Scan("<" + tail + s, tag, isSpace) == Scan(s, tag, isSpace)
  {
    hide Scan;
    var w := "<" + tail;
    assert w[1..] == tail;
    assert (w + s)[1] == tail[0];
    assert OpenOf(tag)[1] == tag[0] && tag[0] in tag;
    ScanPasses(w, s, tag, isSpace);
  }

  lemma {:induction false} StartTag(name: string, tail: string, s: string, tag: string, isSpace: char -> bool)
    requires IsSpacing(isSpace) && IsName(tag, isSpace) && IsName(name, isSpace) && '<' !in tail && name != tag
    requires tail != [] && (tail[0] == '>' || tail[0] == '/' || isSpace(tail[0]))
    ensures Scan("<" + name + tail + s, tag, isSpace) == Scan(s, tag, isSpace)
  {
    hide Scan;
    var w := "<" + name + tail;
    if tag <= name {
      var after := name[|tag|..] + tail;
      assert name == tag + name[|tag|..];
      assert w == OpenOf(tag) + after;
      assert after[0] == name[|tag|] && name[|tag|] in name;
      LongerName(w, after, s, tag, isSpace);
    } else {
      OpensElsewhere(w, name, tail, s, tag, isSpace);
    }
  }

  lemma {:induction false} SelfClosed(attributes: string, s: string, tag: string, isSpace: char -> bool)
    requires IsSpacing(isSpace) && IsName(tag, isSpace) && AreAttributes(attributes, isSpace) && '>' !in attributes
    ensures Scan("<" + tag + (attributes + "/>") + s, tag, isSpace) == Scan(s, tag, isSpace)
  {
    hide Scan;
    var w := "<" + tag + (attributes + "/>");
    if attributes == [] {
      assert w == OpenOf(tag) + "/>";
      LongerName(w, "/>", s, tag, isSpace);
    } else {
      var after := attributes + "/" + ">" + s;
      assert w + s == OpenOf(tag) + after;
      ScanAtOpening(after, tag, isSpace);
      FindAngle(attributes + "/", s);
      assert after[0] == attributes[0];
      assert after[|attributes|] == '/';
      assert after[|attributes| + 2..] == s;
    }
  }

  // ---------------------------------------------------------------------------
  // The end tag
  // ---------------------------------------------------------------------------

  lemma {:induction false} FindPasses(w: string, s: string, pattern: string)
    requires w != [] && pattern != [] && pattern[0] !in w[1..]
    requires !(pattern <= w + s)
    ensures Find(w + s, pattern)
            == match Find(s, pattern) case Some(at) => Some(|w| + at) case None => None
  {
    hide Find;
    assert (w + s)[1..] == w[1..] + s;
    FindStep(w + s, pattern);
    FindSkips(w[1..], s, pattern);
  }

  lemma {:induction false} EndTagPasses(token: Token, s: string, tag: string, isSpace: char -> bool)
    requires IsSpacing(isSpace) && IsName(tag, isSpace) && IsToken(token, isSpace)
    requires token != Close(tag, "")
    ensures Find(Written(token) + s, EndOf(tag))
            == match Find(s, EndOf(tag)) case Some(at) => Some(|Written(token)| + at) case None => None
  {
    hide Find;
    var w := Written(token);
    match token
    case Text(text) => FindSkips(text, s, EndOf(tag));
    case Close(name, space) =>
      NoAngleInSpace(space, isSpace);
      assert w[1..] == "/" + name + space + ">";
      if EndOf(tag) <= w + s {
        SameEndTag(tag, name, space, s, isSpace);
        assert false;
      }
      FindPasses(w, s, EndOf(tag));
    case Declaration(body) =>
      assert w[1..] == body + ">" && w[1] == body[0];
      EndTagOnly(w, s, tag);
    case Open(name, attributes) =>
      assert w[1..] == name + attributes + ">" && w[1] == name[0] && name[0] in name;
      EndTagOnly(w, s, tag);
    case SelfClosing(name, attributes) =>
      assert w[1..] == name + attributes + "/>" && w[1] == name[0] && name[0] in name;
      EndTagOnly(w, s, tag);
  }

  lemma {:induction false} EndTagOnly(w: string, s: string, tag: string)
    requires |w| > 1 && w[1] != '/' && '<' !in w[1..]
    ensures Find(w + s, EndOf(tag))
            == match Find(s, EndOf(tag)) case Some(at) => Some(|w| + at) case None => None
  {
    hide Find;
    assert (w + s)[1] == w[1] && EndOf(tag)[1] == '/';
    FindPasses(w, s, EndOf(tag));
  }

  lemma {:induction false} SameEndTag(tag: string, name: string, space: string, s: string, isSpace: char -> bool)
    requires IsName(tag, isSpace) && IsName(name, isSpace)
    requires IsSpacing(isSpace) && forall c :: c in space ==> isSpace(c)
    requires EndOf(tag) <= "</" + name + space + ">" + s
    ensures tag == name && space == []
  {
    var w, tail := "</" + name + space + ">" + s, space + ">" + s;
    assert w[2..] == name + tail;
    assert forall i :: 0 <= i < |tag| ==> tag[i] == EndOf(tag)[i + 2] == w[i + 2];
    assert EndOf(tag)[|tag| + 2] == '>' == w[|tag| + 2];
    AfterName(space, s, isSpace);
    assert w[|name| + 2] == tail[0];
    assert forall i :: 0 <= i < |name| ==> name[i] == w[i + 2];
    assert forall i :: 0 <= i < |name| ==> name[i] in name;
    assert forall i :: 0 <= i < |tag| ==> tag[i] in tag;
    assert |tag| == |name|;
  }

  lemma {:induction false} AfterName(space: string, s: string, isSpace: char -> bool)
    requires IsSpacing(isSpace) && forall c :: c in space ==> isSpace(c)
    ensures (space + ">" + s)[0] == '>' <==> space == []
    ensures (space + ">" + s)[0] == '>' || isSpace((space + ">" + s)[0])
  {
    if space != [] {
      assert (space + ">" + s)[0] == space[0] && space[0] in space;
    }
  }

  lemma {:induction false} UpToPasses(w: string, s: string, endTag: string)
    requires Find(w + s, endTag) == match Find(s, endTag) case Some(at) => Some(|w| + at) case None => None
    ensures UpTo(w + s, endTag) == match UpTo(s, endTag) case Some(inside) => Some(w + inside) case None => None
  {
    hide Find;
    match Find(s, endTag)
    case Some(at) => assert (w + s)[..|w| + at] == w + s[..at];
    case None =>
  }

  lemma {:induction false} DocumentAdd(token: Token, rest: seq<Token>)
    ensures Document([token] + rest) == Written(token) + Document(rest)
  {
    assert ([token] + rest)[1..] == rest;
  }

  lemma {:induction false} NoEndTag(tag: string)
    ensures UpTo("", EndOf(tag)) == None
  {
  }

  lemma {:induction false} EndTagHere(s: string, tag: string)
    ensures UpTo(Written(Close(tag, "")) + s, EndOf(tag)) == Some([])
  {
  }

  /** The first end tag in the text is the first end tag among the tokens. */
  lemma {:induction false} UpToIsInside(tokens: seq<Token>, tag: string, isSpace: char -> bool)
    requires IsSpacing(isSpace) && IsName(tag, isSpace) && AreTokens(tokens, isSpace)
    ensures UpTo(Document(tokens), EndOf(tag))
            == match Inside(tokens, tag) case Some(inside) => Some(Document(inside)) case None => None
  {
    hide UpTo, EndOf, Written, Find, IsToken, IsName;
    if tokens == [] {
      NoEndTag(tag);
    } else {
      var s := Document(tokens[1..]);
      UpToIsInside(tokens[1..], tag, isSpace);
      if tokens[0] == Close(tag, "") {
        EndTagHere(s, tag);
        assert Document([]) == [];
      } else {
        EndTagPasses(tokens[0], s, tag, isSpace);
        UpToPasses(Written(tokens[0]), s, EndOf(tag));
        match Inside(tokens[1..], tag)
        case Some(rest) => DocumentAdd(tokens[0], rest);
        case None =>
      }
    }
  }

  /** For every document made of such tokens, what the search yields. */
  lemma {:induction false} SearchYields(tokens: seq<Token>, tag: string, isSpace: char -> bool)
    requires IsSpacing(isSpace) && IsName(tag, isSpace) && AreTokens(tokens, isSpace) && CloseOnce(tokens, tag)
    ensures Scan(Document(tokens), tag, isSpace) == FoundText(tokens, tag)
  {
    hide Scan, UpTo, EndOf, Written, IsToken, IsName, ClosesOnce;
    if tokens == [] {
      NoElement(tag, isSpace);
    } else {
      var s := Document(tokens[1..]);
      SearchYields(tokens[1..], tag, isSpace);
      assert IsToken(tokens[0], isSpace) && ClosesOnce(tokens[0], tag);
      if tokens[0].Open? && tokens[0].name == tag {
        OpenedHere(tokens[0].attributes, s, tag, isSpace);
        UpToIsInside(tokens[1..], tag, isSpace);
      } else {
        ScanToken(tokens[0], s, tag, isSpace);
      }
    }
  }

  lemma {:induction false} PlainEndExactly(tokens: seq<Token>, tag: string)
    ensures EndsPlainly(tokens, tag) ==> Inside(tokens, tag) == Within(tokens, tag)
    ensures !EndsPlainly(tokens, tag) ==>
              && Within(tokens, tag).Some?
              && (Inside(tokens, tag).Some? ==>
                    |Document(Inside(tokens, tag).value)| > |Document(Within(tokens, tag).value)|)
  {
    hide Written;
    if tokens != [] {
      PlainEndExactly(tokens[1..], tag);
      var inside, within := Inside(tokens[1..], tag), Within(tokens[1..], tag);
      if inside.Some? { DocumentAdd(tokens[0], inside.value); }
      if within.Some? { DocumentAdd(tokens[0], within.value); }
      if tokens[0].Close? && tokens[0].name == tag && tokens[0].space != [] {
        EndTagIsLong(tokens[0]);
      }
    }
  }

  lemma {:induction false} EndTagIsLong(token: Token)
    requires token.Close?
    ensures |Written(token)| > 0
  {
  }

  /** The search yields the text of the first element of the given name if and only if the tag that ends
      that element has no white space before its bracket. */
  lemma {:induction false} SearchFindsTheElement(tokens: seq<Token>, tag: string, isSpace: char -> bool)
    requires IsSpacing(isSpace) && IsName(tag, isSpace) && AreTokens(tokens, isSpace) && CloseOnce(tokens, tag)
    ensures Scan(Document(tokens), tag, isSpace) == ElementText(tokens, tag) <==> ElementEndsPlainly(tokens, tag)
  {
    SearchYields(tokens, tag, isSpace);
    FoundIsElement(tokens, tag);
  }

  lemma {:induction false} FoundIsElement(tokens: seq<Token>, tag: string)
    ensures FoundText(tokens, tag) == ElementText(tokens, tag) <==> ElementEndsPlainly(tokens, tag)
  {
    hide Document;
    if tokens != [] {
      if tokens[0].Open? && tokens[0].name == tag {
        PlainEndExactly(tokens[1..], tag);
      } else {
        FoundIsElement(tokens[1..], tag);
      }
    }
  }

  lemma {:induction false} NoElement(tag: string, isSpace: char -> bool)
    ensures Scan("", tag, isSpace) == None
  {
  }

  lemma {:induction false} OpenedHere(attributes: string, s: string, tag: string, isSpace: char -> bool)
    requires IsSpacing(isSpace) && IsToken(Open(tag, attributes), isSpace)
    requires ClosesOnce(Open(tag, attributes), tag)
    ensures Scan(Written(Open(tag, attributes)) + s, tag, isSpace) == UpTo(s, EndOf(tag))
  {
    hide Scan, UpTo;
    var after := attributes + ">" + s;
    assert Written(Open(tag, attributes)) + s == OpenOf(tag) + after;
    ScanAtOpening(after, tag, isSpace);
    assert after[|attributes| + 1..] == s;
    if attributes != [] {
      FindAngle(attributes, s);
      assert after[0] == attributes[0] && after[|attributes| - 1] == attributes[|attributes| - 1];
    }
  }
}
