/** Reading DIDL-Lite metadata (src/adapters/didl.rs): undoing one level of XML escaping. */
module Didl {
  import opened Zones

  // ---------------------------------------------------------------------------
  // Entities
  // ---------------------------------------------------------------------------

  datatype Entity = Entity(text: string, stands: char)

  const COUNT: nat := 5

  /** The entities in the order they are replaced; the ampersand's own comes last. */
  function EntityOf(i: nat): Entity
    requires i < COUNT
  {
    if i == 0 then Entity("&lt;", '<')
    else if i == 1 then Entity("&gt;", '>')
    else if i == 2 then Entity("&quot;", '"')
    else if i == 3 then Entity("&apos;", '\'')
    else Entity("&amp;", '&')
  }

  /** Replace every occurrence of an entity, from left to right. */
  function Replace(s: string, entity: Entity): string {
    if s == [] then []
    else if entity.text != [] && entity.text <= s then [entity.stands] + Replace(s[|entity.text|..], entity)
    else [s[0]] + Replace(s[1..], entity)
  }

  /** The decoder as written: one whole pass for each entity. */
  function HtmlDecode(s: string): string {
    Replace(Replace(Replace(Replace(Replace(s, EntityOf(0)), EntityOf(1)), EntityOf(2)), EntityOf(3)), EntityOf(4))
  }

  /** Which of the first `n` entities the text starts with. */
  function EntityAt(s: string, n: nat): (at: Option<nat>)
    requires n <= COUNT
    ensures at.Some? ==> at.value < n && EntityOf(at.value).text <= s
    ensures at.None? ==> forall i :: 0 <= i < n ==> !(EntityOf(i).text <= s)
  {
    if n == 0 then None
    else if EntityOf(n - 1).text <= s then Some(n - 1)
    else EntityAt(s, n - 1)
  }

  /** One pass from left to right that decodes the first `n` entities and looks at every character of
      the text once: what an entity stands for is never looked at again. */
  function DecodeOnce(s: string, n: nat): string
    requires n <= COUNT
    decreases |s|
  {
    if s == [] then []
    else
      match EntityAt(s, n)
      case Some(i) =>
        EntityShape(i);
        [EntityOf(i).stands] + DecodeOnce(s[|EntityOf(i).text|..], n)
      case None => [s[0]] + DecodeOnce(s[1..], n)
  }

  /** Nothing an entity starts with, and nothing an entity other than the ampersand's stands for. */
  predicate Plain(w: string) {
    forall c :: c in w ==> c == ';' || 'a' <= c <= 'z'
  }

  /** What matters of the table: every entity is an ampersand followed by plain text, and only the last
      one stands for an ampersand. */
  lemma {:induction false} EntityShape(i: nat)
    requires i < COUNT
    ensures var e := EntityOf(i);
            && |e.text| > 2 && e.text[0] == '&' && Plain(e.text[1..])
            && (i < COUNT - 1 ==> e.stands != '&')
            && e.stands != ';' && !('a' <= e.stands <= 'z')
  {
    assert "&lt;"[1..] == "lt;" && "&gt;"[1..] == "gt;" && "&quot;"[1..] == "quot;";
    assert "&apos;"[1..] == "apos;" && "&amp;"[1..] == "amp;";
  }

  lemma {:induction false} EntitiesDiffer(i: nat, j: nat, s: string)
    requires i < COUNT && j < COUNT
    requires EntityOf(i).text <= s && EntityOf(j).text <= s
    ensures i == j
  {
    EntityShape(i);
    EntityShape(j);
    assert s[1] == EntityOf(i).text[1] == EntityOf(j).text[1];
    assert s[2] == EntityOf(i).text[2] == EntityOf(j).text[2];
  }

  // ---------------------------------------------------------------------------
  // Single steps
  // ---------------------------------------------------------------------------

  lemma {:induction false} DecodeEntity(s: string, n: nat, i: nat)
    requires i < n <= COUNT && EntityOf(i).text <= s
    ensures |EntityOf(i).text| <= |s|
    ensures DecodeOnce(s, n) == [EntityOf(i).stands] + DecodeOnce(s[|EntityOf(i).text|..], n)
  {
    hide EntityAt, EntityOf;
    EntityShape(i);
    EntitiesDiffer(EntityAt(s, n).value, i, s);
  }

  lemma {:induction false} DecodeOther(s: string, n: nat)
    requires n <= COUNT && s != [] && EntityAt(s, n).None?
    ensures DecodeOnce(s, n) == [s[0]] + DecodeOnce(s[1..], n)
  {
  }

  lemma {:induction false} NoneAt(s: string, n: nat)
    requires n <= COUNT
    requires forall i :: 0 <= i < n ==> !(EntityOf(i).text <= s)
    ensures EntityAt(s, n) == None
  {
  }

  /** Only an ampersand starts an entity. */
  lemma {:induction false} PlainStart(s: string, n: nat)
    requires n <= COUNT && s != [] && s[0] != '&'
    ensures EntityAt(s, n) == None
  {
    hide EntityAt, EntityOf;
    if EntityAt(s, n).Some? {
      EntityShape(EntityAt(s, n).value);
    }
  }

  lemma {:induction false} ReplaceEntity(e: Entity, rest: string)
    requires e.text != []
    ensures Replace(e.text + rest, e) == [e.stands] + Replace(rest, e)
  {
    assert (e.text + rest)[|e.text|..] == rest;
  }

  lemma {:induction false} ReplaceOther(c: char, s: string, e: Entity)
    requires !(e.text <= [c] + s)
    ensures Replace([c] + s, e) == [c] + Replace(s, e)
  {
    assert ([c] + s)[0] == c && ([c] + s)[1..] == s;
  }

  lemma {:induction false} PrefixTail(w: string, c: char, s: string)
    requires w != []
    ensures w <= [c] + s <==> w[0] == c && w[1..] <= s
  {
    assert w == [w[0]] + w[1..];
    if w <= [c] + s {
      assert w[1..] == ([c] + s)[..|w|][1..] == s[..|w| - 1];
    }
  }

  // ---------------------------------------------------------------------------
  // Five passes are one
  // ---------------------------------------------------------------------------

  lemma {:induction false} DecodeSkips(w: string, s: string, n: nat)
    requires n <= COUNT
    requires '&' !in w
    ensures DecodeOnce(w + s, n) == w + DecodeOnce(s, n)
  {
    hide DecodeOnce, EntityAt;
    if w == [] {
      assert w + s == s;
    } else {
      assert (w + s)[0] == w[0] && w[0] in w;
      assert (w + s)[1..] == w[1..] + s;
      PlainStart(w + s, n);
      DecodeOther(w + s, n);
      DecodeSkips(w[1..], s, n);
    }
  }

  /** Decoding cannot make up plain text that was not there. */
  lemma {:induction false} DecodeInventsNothing(w: string, s: string, n: nat)
    requires n <= COUNT
    requires Plain(w)
    requires w <= DecodeOnce(s, n)
    ensures w <= s
  {
    hide EntityAt, EntityOf;
    if w != [] {
      assert w[0] in w;
      match EntityAt(s, n) {
        case Some(i) => EntityShape(i);
        case None =>
      }
      assert w[1..] <= DecodeOnce(s[1..], n);
      assert forall c :: c in w[1..] ==> c in w;
      DecodeInventsNothing(w[1..], s[1..], n);
      assert w == [w[0]] + w[1..];
    }
  }

  /** An entity not decoded yet stays as it is. */
  lemma {:induction false} EntityStays(s: string, n: nat, text: string)
    requires n <= COUNT
    requires text != [] && text <= s && EntityAt(s, n).None? && '&' !in text[1..]
    ensures DecodeOnce(s, n) == text + DecodeOnce(s[|text|..], n)
  {
    hide EntityAt, DecodeOnce;
    var rest := s[|text|..];
    assert s[1..] == text[1..] + rest;
    DecodeOther(s, n);
    DecodeSkips(text[1..], rest, n);
    assert text == [s[0]] + text[1..];
  }

  /** A pass over the first `n` entities never puts the next one together. */
  lemma {:induction false} NoNewEntity(s: string, n: nat)
    requires n < COUNT
    requires s != [] && EntityAt(s, n).None? && !(EntityOf(n).text <= s)
    ensures !(EntityOf(n).text <= DecodeOnce(s, n))
  {
    hide EntityAt, EntityOf, DecodeOnce;
    var text := EntityOf(n).text;
    EntityShape(n);
    DecodeOther(s, n);
    assert s == [s[0]] + s[1..];
    PrefixTail(text, s[0], s[1..]);
    PrefixTail(text, s[0], DecodeOnce(s[1..], n));
    if text[1..] <= DecodeOnce(s[1..], n) {
      DecodeInventsNothing(text[1..], s[1..], n);
    }
  }

  /** One more replacement after a pass over the first `n` entities is a pass over `n + 1` of them. */
  lemma {:induction false} ReplaceExtendsPass(s: string, n: nat)
    requires n < COUNT
    ensures Replace(DecodeOnce(s, n), EntityOf(n)) == DecodeOnce(s, n + 1)
    decreases |s|
  {
    hide EntityAt, EntityOf, DecodeOnce, Replace;
    var e := EntityOf(n);
    EntityShape(n);
    if s == [] {
      Nothing(n);
    } else if EntityAt(s, n).Some? {
      var i := EntityAt(s, n).value;
      EntityShape(i);
      DecodeEntity(s, n, i);
      DecodeEntity(s, n + 1, i);
      var rest := s[|EntityOf(i).text|..];
      ReplaceExtendsPass(rest, n);
      PrefixTail(e.text, EntityOf(i).stands, DecodeOnce(rest, n));
      ReplaceOther(EntityOf(i).stands, DecodeOnce(rest, n), e);
    } else if e.text <= s {
      var rest := s[|e.text|..];
      ReplaceExtendsPass(rest, n);
      EntityStays(s, n, e.text);
      ReplaceEntity(e, DecodeOnce(rest, n));
      DecodeEntity(s, n + 1, n);
    } else {
      ReplaceExtendsPass(s[1..], n);
      NoNewEntity(s, n);
      DecodeOther(s, n);
      ReplaceOther(s[0], DecodeOnce(s[1..], n), e);
      NoneAt(s, n + 1);
      DecodeOther(s, n + 1);
    }
  }

  lemma {:induction false} Nothing(n: nat)
    requires n < COUNT
    ensures Replace(DecodeOnce([], n), EntityOf(n)) == DecodeOnce([], n + 1)
  {
  }

  lemma {:induction false} NoEntities(s: string)
    ensures DecodeOnce(s, 0) == s
  {
    if s != [] {
      NoEntities(s[1..]);
    }
  }

  /** The five passes are one pass: no character a replacement produces is ever read again as part of an
      entity. */
  lemma {:induction false} FivePassesAreOne(s: string)
    ensures HtmlDecode(s) == DecodeOnce(s, COUNT)
  {
    hide Replace, DecodeOnce, EntityOf;
    NoEntities(s);
    ReplaceExtendsPass(s, 0);
    ReplaceExtendsPass(s, 1);
    ReplaceExtendsPass(s, 2);
    ReplaceExtendsPass(s, 3);
    ReplaceExtendsPass(s, 4);
  }

  /** Nothing before an ampersand takes part in what it starts. */
  lemma {:induction false} DecodeSplits(p: string, s: string)
    requires s != [] && s[0] == '&'
    ensures DecodeOnce(p + s, COUNT) == DecodeOnce(p, COUNT) + DecodeOnce(s, COUNT)
    decreases |p|
  {
    hide DecodeOnce, EntityAt, EntityOf;
    if p == [] {
      assert p + s == s;
      DecodesNothing();
    } else if EntityAt(p, COUNT).Some? {
      var i := EntityAt(p, COUNT).value;
      var text := EntityOf(i).text;
      EntityShape(i);
      DecodeEntity(p, COUNT, i);
      DecodeEntity(p + s, COUNT, i);
      assert (p + s)[|text|..] == p[|text|..] + s;
      DecodeSplits(p[|text|..], s);
    } else {
      forall i | 0 <= i < COUNT ensures !(EntityOf(i).text <= p + s) {
        EntityShape(i);
        if EntityOf(i).text <= p + s {
          NotAcross(EntityOf(i).text, p, s);
        }
      }
      NoneAt(p + s, COUNT);
      DecodeOther(p, COUNT);
      DecodeOther(p + s, COUNT);
      assert (p + s)[1..] == p[1..] + s;
      DecodeSplits(p[1..], s);
    }
  }

  lemma {:induction false} NotAcross(text: string, p: string, s: string)
    requires p != [] && s != [] && s[0] == '&' && text <= p + s
    ensures text <= p || '&' in text[1..]
  {
    if |text| > |p| {
      assert text[1..][|p| - 1] == '&';
    }
  }

  lemma {:induction false} DecodesNothing()
    ensures DecodeOnce([], COUNT) == []
  {
  }

  lemma {:induction false} EntitySplits(p: string, i: nat, q: string)
    requires i < COUNT
    ensures HtmlDecode(p + EntityOf(i).text + q) == HtmlDecode(p) + [EntityOf(i).stands] + HtmlDecode(q)
  {
    hide HtmlDecode, DecodeOnce, EntityOf;
    var text := EntityOf(i).text;
    EntityShape(i);
    FivePassesAreOne(p + text + q);
    FivePassesAreOne(p);
    FivePassesAreOne(q);
    assert p + text + q == p + (text + q);
    DecodeSplits(p, text + q);
    DecodeEntity(text + q, COUNT, i);
    assert (text + q)[|text|..] == q;
  }

  /** What is decoded, wherever it stands: these five, each to its one character. */
  lemma {:induction false} EntitiesAreDecoded(p: string, q: string)
    ensures HtmlDecode(p + "&lt;" + q) == HtmlDecode(p) + "<" + HtmlDecode(q)
    ensures HtmlDecode(p + "&gt;" + q) == HtmlDecode(p) + ">" + HtmlDecode(q)
    ensures HtmlDecode(p + "&quot;" + q) == HtmlDecode(p) + "\"" + HtmlDecode(q)
    ensures HtmlDecode(p + "&apos;" + q) == HtmlDecode(p) + "'" + HtmlDecode(q)
    ensures HtmlDecode(p + "&amp;" + q) == HtmlDecode(p) + "&" + HtmlDecode(q)
  {
    hide HtmlDecode;
    EntitySplits(p, 0, q);
    EntitySplits(p, 1, q);
    EntitySplits(p, 2, q);
    EntitySplits(p, 3, q);
    EntitySplits(p, 4, q);
  }

  /** What is not: text without an ampersand, and an ampersand that begins none of the five. Together with
      the five this says what every text decodes to. */
  lemma {:induction false} NothingElseIsDecoded(p: string, q: string)
    ensures '&' !in p ==> HtmlDecode(p + q) == p + HtmlDecode(q)
    ensures !("lt;" <= q || "gt;" <= q || "quot;" <= q || "apos;" <= q || "amp;" <= q) ==>
              HtmlDecode(p + "&" + q) == HtmlDecode(p) + "&" + HtmlDecode(q)
  {
    hide HtmlDecode, DecodeOnce, EntityAt;
    FivePassesAreOne(p + q);
    FivePassesAreOne(p);
    FivePassesAreOne(q);
    if '&' !in p {
      DecodeSkips(p, q, COUNT);
    }
    if !("lt;" <= q || "gt;" <= q || "quot;" <= q || "apos;" <= q || "amp;" <= q) {
      FivePassesAreOne(p + "&" + q);
      assert p + "&" + q == p + ("&" + q) && "&" + q == ['&'] + q;
      DecodeSplits(p, "&" + q);
      BareAmpersand(q);
    }
  }

  lemma {:induction false} BareAmpersand(q: string)
    requires !("lt;" <= q || "gt;" <= q || "quot;" <= q || "apos;" <= q || "amp;" <= q)
    ensures DecodeOnce(['&'] + q, COUNT) == ['&'] + DecodeOnce(q, COUNT)
  {
    hide DecodeOnce, EntityAt;
    forall i | 0 <= i < COUNT ensures !(EntityOf(i).text <= ['&'] + q) {
      PrefixTail(EntityOf(i).text, '&', q);
      assert "&lt;"[1..] == "lt;" && "&gt;"[1..] == "gt;" && "&quot;"[1..] == "quot;";
      assert "&apos;"[1..] == "apos;" && "&amp;"[1..] == "amp;";
    }
    NoneAt(['&'] + q, COUNT);
    DecodeOther(['&'] + q, COUNT);
  }

  // ---------------------------------------------------------------------------
  // Decoding undoes escaping
  // ---------------------------------------------------------------------------

  /** The entity that stands for a character, if one does. */
  function EntityFor(c: char): (i: Option<nat>)
    ensures i.Some? ==> i.value < COUNT && EntityOf(i.value).stands == c
    ensures i.None? ==> c != '&'
  {
    match c
    case '<' => Some(0)
    case '>' => Some(1)
    case '"' => Some(2)
    case '\'' => Some(3)
    case '&' => Some(4)
    case _ => None
  }

  /** One level of escaping, as a sender of DIDL-Lite applies it. */
  function Escape(s: string): string {
    if s == [] then []
    else
      match EntityFor(s[0])
      case Some(i) => EntityOf(i).text + Escape(s[1..])
      case None => [s[0]] + Escape(s[1..])
  }

  /** Decoding undoes one level of escaping, whatever was escaped; text that was escaped twice comes back
      escaped once. */
  lemma {:induction false} DecodeUndoesEscape(s: string)
    ensures HtmlDecode(Escape(s)) == s
  {
    hide HtmlDecode, Escape, DecodeOnce;
    FivePassesAreOne(Escape(s));
    PassUndoesEscape(s);
  }

  lemma {:induction false} PassUndoesEscape(s: string)
    ensures DecodeOnce(Escape(s), COUNT) == s
  {
    hide DecodeOnce, EntityFor, EntityOf;
    if s == [] {
      DecodesNothing();
    } else {
      PassUndoesEscape(s[1..]);
      var rest := Escape(s[1..]);
      match EntityFor(s[0])
      case Some(i) =>
        var text := EntityOf(i).text;
        DecodeEntity(text + rest, COUNT, i);
        assert (text + rest)[|text|..] == rest;
      case None =>
        DecodeSkips([s[0]], rest, COUNT);
    }
  }

  /** Why the ampersand must come last: replacing its entity first decodes two levels. */
  lemma {:induction false} AmpersandFirstDecodesTwice()
    ensures Replace(Replace("&amp;lt;", EntityOf(4)), EntityOf(0)) == "<"
    ensures HtmlDecode("&amp;lt;") == "&lt;"
  {
    hide Replace, HtmlDecode;
    assert "&amp;lt;" == EntityOf(4).text + "lt;" && "&lt;" == EntityOf(0).text + "";
    assert "&lt;" == [EntityOf(4).stands] + "lt;" && "<" == [EntityOf(0).stands] + "";
    ReplaceEntity(EntityOf(4), "lt;");
    NoEntityIn("lt;");
    ReplaceEntity(EntityOf(0), "");
    ReplaceNothing(EntityOf(0));
    EscapeOfEntity();
    DecodeUndoesEscape("&lt;");
  }

  lemma {:induction false} ReplaceNothing(e: Entity)
    ensures Replace("", e) == ""
  {
  }

  lemma {:induction false} EscapeOfEntity()
    ensures Escape("&lt;") == "&amp;lt;"
  {
    assert "&lt;"[1..] == "lt;";
    EscapePlain("lt;");
  }

  lemma {:induction false} EscapePlain(w: string)
    requires Plain(w)
    ensures Escape(w) == w
  {
    hide EntityFor, EntityOf;
    if w != [] {
      assert w[0] in w;
      NotEscaped(w[0]);
      assert forall c :: c in w[1..] ==> c in w;
      EscapePlain(w[1..]);
    }
  }

  lemma {:induction false} NotEscaped(c: char)
    requires c == ';' || 'a' <= c <= 'z'
    ensures EntityFor(c) == None
  {
  }

  lemma {:induction false} NoEntityIn(s: string)
    requires '&' !in s
    ensures Replace(s, EntityOf(4)) == s
  {
    if s != [] {
      assert s[0] in s;
      NoEntityIn(s[1..]);
    }
  }
}
