/**
 Retrieved context rendered as indented JSON within a budget of characters. Texts are cut to fit,
 and a flag says whether anything is missing.
 */
module ContextFormatter {
  import opened Common
  import Text

  /** A search result; the score is given by its JSON text, or absent if it is not finite. */
  datatype Retrieved = Retrieved(
    tenant: string, documentType: Option<string>, documentId: string, chunkId: string,
    score: Option<string>, text: string)

  datatype Item = Item(sourceIndex: nat, source: Retrieved, text: string)

  const TRUNCATED_SUFFIX := "... [truncated]"

  // Rendering

  function Digits(n: nat): string {
    if n < 10 then ["0123456789"[n]] else Digits(n / 10) + ["0123456789"[n % 10]]
  }

  function Hex(n: nat): char {
    "0123456789abcdef"[n % 16]
  }

  function Escaped(c: char): string {
    if c == '"' then "\\\""
    else if c == '\\' then "\\\\"
    else if c == '\n' then "\\n"
    else if c == '\r' then "\\r"
    else if c == '\t' then "\\t"
    else if c == '\U{08}' then "\\b"
    else if c == '\U{0C}' then "\\f"
    else if c < ' ' then "\\u00" + [Hex(c as int / 16), Hex(c as int)]
    else [c]
  }

  function EscapedText(s: string): string {
    if s == [] then [] else EscapedText(s[..|s| - 1]) + Escaped(s[|s| - 1])
  }

  function Quoted(s: string): string {
    "\"" + EscapedText(s) + "\""
  }

  function RenderItem(item: Item): string {
    "    {\n" +
    "      \"source_index\": " + Digits(item.sourceIndex) + ",\n" +
    "      \"tenant\": " + Quoted(item.source.tenant) + ",\n" +
    "      \"document_type\": " +
    (match item.source.documentType case Some(t) => Quoted(t) case None => "null") + ",\n" +
    "      \"document_id\": " + Quoted(item.source.documentId) + ",\n" +
    "      \"chunk_id\": " + Quoted(item.source.chunkId) + ",\n" +
    "      \"score\": " + (match item.source.score case Some(t) => t case None => "null") + ",\n" +
    "      \"text\": " + Quoted(item.text) + "\n" +
    "    }"
  }

  function JoinedItems(items: seq<Item>, one: Item -> string): string {
    if items == [] then ""
    else if |items| == 1 then one(items[0])
    else JoinedItems(items[..|items| - 1], one) + ",\n" + one(items[|items| - 1])
  }

  function RenderItems(items: seq<Item>, one: Item -> string): string {
    if items == [] then "[]" else "[\n" + JoinedItems(items, one) + "\n  ]"
  }

  /** The payload starts with a fixed notice to the reader of the context. */
  function RenderPayload(notice: string, items: seq<Item>, truncated: bool): string {
    "{\n  \"notice\": " + Quoted(notice) + ",\n  \"items\": " + RenderItems(items, RenderItem) +
    ",\n  \"truncated\": " + (if truncated then "true" else "false") + "\n}"
  }

  lemma {:induction false} LongerItemsRenderLonger(items: seq<Item>, n: nat, one: Item -> string)
    requires n <= |items|
    ensures |RenderItems(items[..n], one)| <= |RenderItems(items, one)|
    decreases |items|
  {
    if n < |items| {
      LongerItemsRenderLonger(items[..|items| - 1], n, one);
      assert items[..|items| - 1][..n] == items[..n];
    } else {
      assert items[..n] == items;
    }
  }

  // Reading a rendered text

  function HexValue(c: char): Option<nat> {
    if '0' <= c <= '9' then Some(c as int - '0' as int)
    else if 'a' <= c <= 'f' then Some(c as int - 'a' as int + 10)
    else None
  }

  /** The character at the front of an escaped text, and what follows it. */
  function ReadChar(t: string): Option<(char, string)>
    ensures ReadChar(t).Some? ==> |ReadChar(t).value.1| < |t|
  {
    if t == [] || t[0] == '"' then None
    else if t[0] != '\\' then Some((t[0], t[1..]))
    else if |t| < 2 then None
    else if t[1] == '"' || t[1] == '\\' then Some((t[1], t[2..]))
    else if t[1] == 'n' then Some(('\n', t[2..]))
    else if t[1] == 'r' then Some(('\r', t[2..]))
    else if t[1] == 't' then Some(('\t', t[2..]))
    else if t[1] == 'b' then Some(('\U{08}', t[2..]))
    else if t[1] == 'f' then Some(('\U{0C}', t[2..]))
    else if |t| >= 6 && t[1..4] == "u00" && HexValue(t[4]).Some? && HexValue(t[5]).Some? then
      Some(((HexValue(t[4]).value * 16 + HexValue(t[5]).value) as char, t[6..]))
    else None
  }

  /** The text in quotes at the front, and what follows the closing quote. */
  function ReadQuoted(t: string): Option<(string, string)>
    decreases |t|
  {
    if t != [] && t[0] == '"' then Some(("", t[1..]))
    else
      match ReadChar(t)
      case None => None
      case Some((c, rest)) =>
        match ReadQuoted(rest)
        case None => None
        case Some((s, after)) => Some(([c] + s, after))
  }

  lemma {:induction false} EscapedFront(s: string)
    requires s != []
    ensures EscapedText(s) == Escaped(s[0]) + EscapedText(s[1..])
  {
    if |s| > 1 {
      var init := s[..|s| - 1];
      EscapedFront(init);
      assert s[1..][..|s| - 2] == init[1..];
    }
  }

  lemma {:induction false} HexReads(n: nat)
    requires n < 16
    ensures HexValue(Hex(n)) == Some(n)
  {
  }

  lemma {:induction false} ControlReads(c: char, rest: string)
    requires c < ' '
    ensures ReadChar("\\u00" + [Hex(c as int / 16), Hex(c as int)] + rest) == Some((c, rest))
  {
    var n := c as int;
    var t := "\\u00" + [Hex(n / 16), Hex(n)] + rest;
    HexReads(n / 16);
    HexReads(n % 16);
    assert Hex(n) == Hex(n % 16);
    assert t[1..4] == "u00" && t[4] == Hex(n / 16) && t[5] == Hex(n) && t[6..] == rest;
    assert n / 16 * 16 + n % 16 == n;
  }

  lemma {:induction false} PairReads(e: char, rest: string)
    requires e in "\"\\nrtbf"
    ensures ReadChar(['\\', e] + rest)
         == Some((if e == 'n' then '\n' else if e == 'r' then '\r' else if e == 't' then '\t'
                  else if e == 'b' then '\U{08}' else if e == 'f' then '\U{0C}' else e, rest))
  {
    assert (['\\', e] + rest)[2..] == rest;
  }

  lemma {:induction false} EscapedCharReads(c: char, rest: string)
    ensures ReadChar(Escaped(c) + rest) == Some((c, rest))
  {
    if c == '"' || c == '\\' || c == '\n' || c == '\r' || c == '\t' || c == '\U{08}' || c == '\U{0C}' {
      PairReads(Escaped(c)[1], rest);
      assert Escaped(c) == ['\\', Escaped(c)[1]];
    } else if c < ' ' {
      ControlReads(c, rest);
    } else {
      assert ([c] + rest)[1..] == rest;
    }
  }

  lemma {:induction false} ReadsOneMore(t: string, c: char, rest: string, s: string, after: string)
    requires t != [] && t[0] != '"' && ReadChar(t) == Some((c, rest)) && ReadQuoted(rest) == Some((s, after))
    ensures ReadQuoted(t) == Some(([c] + s, after))
  {
  }

  lemma {:induction false} EscapedAssociates(s: string, tail: string)
    requires s != []
    ensures EscapedText(s) + tail == Escaped(s[0]) + (EscapedText(s[1..]) + tail)
    ensures EscapedText(s) + tail != [] && (EscapedText(s) + tail)[0] == Escaped(s[0])[0]
  {
    EscapedFront(s);
  }

  lemma {:induction false} EscapedTextReads(s: string, tail: string, after: string)
    requires ReadQuoted(tail) == Some(([], after))
    ensures ReadQuoted(EscapedText(s) + tail) == Some((s, after))
    decreases |s|
  {
    if s == [] {
      assert EscapedText(s) + tail == tail;
    } else {
      var rest := EscapedText(s[1..]) + tail;
      EscapedAssociates(s, tail);
      EscapedTextReads(s[1..], tail, after);
      EscapedCharReads(s[0], rest);
      ReadsOneMore(EscapedText(s) + tail, s[0], rest, s[1..], after);
      assert [s[0]] + s[1..] == s;
    }
  }

  lemma {:induction false} AfterQuote(s: string, text: string, after: string)
    requires text == EscapedText(s)
    ensures (Quoted(s) + after)[1..] == text + ("\"" + after)
  {
    var q := "\"";
    assert Quoted(s) == q + text + q;
    assert q + text + q + after == q + (text + (q + after));
  }

  lemma {:induction false} QuoteEnds(after: string)
    ensures ReadQuoted("\"" + after) == Some(([], after))
  {
    assert ("\"" + after)[1..] == after;
  }

  /** Whatever characters a text has, it can be read back from its rendering, which ends where it ends. */
  lemma {:induction false} QuotedTextReadsBack(s: string, after: string)
    ensures ReadQuoted((Quoted(s) + after)[1..]) == Some((s, after))
  {
    QuoteEnds(after);
    EscapedTextReads(s, "\"" + after, after);
    AfterQuote(s, EscapedText(s), after);
  }

  type Renderer = (seq<Item>, bool) -> string

  /** More items never render shorter, and the flag takes no more room when true than when false. */
  ghost predicate Monotone(render: Renderer) {
    && (forall items, n: nat | n <= |items| :: |render(items[..n], false)| <= |render(items, false)|)
    && (forall items :: |render(items, true)| <= |render(items, false)|)
  }

  function Json(notice: string): Renderer {
    (items, truncated) => RenderPayload(notice, items, truncated)
  }

  lemma {:induction false} JsonRenderingIsMonotone(notice: string)
    ensures Monotone(Json(notice))
  {
    forall items: seq<Item>, n: nat | n <= |items|
      ensures |RenderPayload(notice, items[..n], false)| <= |RenderPayload(notice, items, false)|
    {
      LongerItemsRenderLonger(items, n, RenderItem);
    }
  }

  predicate FitsContext(render: Renderer, items: seq<Item>, truncated: bool, maxContextChars: int) {
    |render(items, truncated)| <= maxContextChars
  }

  // Cutting

  function Truncate(text: string, maxChars: int): string {
    if maxChars <= 0 then ""
    else if |text| <= maxChars then text
    else if maxChars <= |TRUNCATED_SUFFIX| then text[..maxChars]
    else Text.RStrip(text[..maxChars - |TRUNCATED_SUFFIX|]) + TRUNCATED_SUFFIX
  }

  /** A cut text is within its limit, and is the text itself exactly when that was. */
  lemma {:induction false} TruncateWithinLimit(text: string, maxChars: nat)
    ensures |Truncate(text, maxChars)| <= maxChars
    ensures Truncate(text, maxChars) == text <==> |text| <= maxChars
  {
  }

  /**
   A text that is too long keeps its start: as much as leaves room for the suffix, without white space at
   the end, or just that much if there is no room for the suffix.
   */
  lemma {:induction false} TruncateKeepsStart(text: string, maxChars: nat) returns (n: nat)
    requires |text| > maxChars
    ensures n <= maxChars
    ensures maxChars <= |TRUNCATED_SUFFIX| ==> n == maxChars && Truncate(text, maxChars) == text[..n]
    ensures maxChars > |TRUNCATED_SUFFIX| ==>
              && Truncate(text, maxChars) == text[..n] + TRUNCATED_SUFFIX
              && n <= maxChars - |TRUNCATED_SUFFIX| && (n > 0 ==> !Text.IsSpace(text[n - 1]))
              && forall p | n <= p < maxChars - |TRUNCATED_SUFFIX| :: Text.IsSpace(text[p])
  {
    n := maxChars;
    if maxChars > |TRUNCATED_SUFFIX| {
      var start := text[..maxChars - |TRUNCATED_SUFFIX|];
      n := Text.End(start);
      assert start[..n] == text[..n];
      forall p | n <= p < |start| ensures Text.IsSpace(text[p]) {
        assert text[p] == start[p];
      }
    }
  }

  function FullItem(results: seq<Retrieved>, i: nat): Item
    requires i < |results|
  {
    Item(i + 1, results[i], results[i].text)
  }

  function FullItems(results: seq<Retrieved>): seq<Item> {
    seq(|results|, i requires 0 <= i < |results| => FullItem(results, i))
  }

  /** The item of result `i` with its text cut to a limit. */
  function CutItem(results: seq<Retrieved>, i: nat, limit: int): Item
    requires i < |results|
  {
    Item(i + 1, results[i], Truncate(results[i].text, limit))
  }

  /** What the budget leaves for the text of the next result. */
  function Room(render: Renderer, results: seq<Retrieved>, items: seq<Item>, maxContextChars: int): int
    requires |items| < |results|
  {
    maxContextChars - |render(items + [Item(|items| + 1, results[|items|], "")], true)|
  }

  function Smaller(a: int, b: int): int {
    if a < b then a else b
  }

  /** After `before` comes the next result at the chunk limit, or cut to the room left if that would not fit. */
  predicate IsNext(render: Renderer, results: seq<Retrieved>, before: seq<Item>, item: Item, maxContextChars: int,
                   maxChunkChars: int)
    requires |before| < |results|
  {
    var i := |before|;
    || item == CutItem(results, i, maxChunkChars)
    || (&& !FitsContext(render, before + [CutItem(results, i, maxChunkChars)], false, maxContextChars)
        && 0 < Room(render, results, before, maxContextChars)
        && item == CutItem(results, i, Smaller(maxChunkChars, Room(render, results, before, maxContextChars))))
  }

  /** The items are an in-order prefix of the results, no text cut shorter than it must be. */
  ghost predicate IsPrefix(render: Renderer, results: seq<Retrieved>, items: seq<Item>, maxContextChars: int,
                           maxChunkChars: int)
  {
    && |items| <= |results|
    && forall i | 0 <= i < |items| :: IsNext(render, results, items[..i], items[i], maxContextChars, maxChunkChars)
  }

  /**
   Every text is cut at the chunk limit only, or, if that would not fit, to what the budget leaves once the
   items before it and the item without its text are rendered.
   */
  lemma {:induction false} TextsAreCutToRoom(render: Renderer, results: seq<Retrieved>, items: seq<Item>,
                                             maxContextChars: int, maxChunkChars: int, i: nat)
    requires IsPrefix(render, results, items, maxContextChars, maxChunkChars) && i < |items|
    ensures i < |results|
    ensures var before, text := items[..i], results[i].text;
            var whole := Item(i + 1, results[i], Truncate(text, maxChunkChars));
            var room := maxContextChars - |render(before + [Item(i + 1, results[i], "")], true)|;
            || items[i] == whole
            || (&& |render(before + [whole], false)| > maxContextChars && room > 0
                && items[i] == Item(i + 1, results[i],
                                    Truncate(text, if maxChunkChars < room then maxChunkChars else room)))
  {
    assert IsNext(render, results, items[..i], items[i], maxContextChars, maxChunkChars);
  }

  /** The next result fits neither at the chunk limit nor cut to the room left. */
  predicate NothingMoreFits(render: Renderer, results: seq<Retrieved>, items: seq<Item>, maxContextChars: int,
                            maxChunkChars: int)
    requires |items| < |results|
  {
    var room := Room(render, results, items, maxContextChars);
    && !FitsContext(render, items + [CutItem(results, |items|, maxChunkChars)], false, maxContextChars)
    && (room <= 0 || !FitsContext(render, items + [CutItem(results, |items|, Smaller(maxChunkChars, room))], true,
                                  maxContextChars))
  }

  /** Everything fits as it is: no result, no text and no character needs to be left out. */
  predicate EverythingFits(render: Renderer, results: seq<Retrieved>, maxContextChars: int, maxItems: int,
                           maxChunkChars: int)
  {
    && |results| <= maxItems
    && (forall r | r in results :: |r.text| <= maxChunkChars)
    && (results == [] || FitsContext(render, FullItems(results), false, maxContextChars))
  }

  ghost predicate FormatInvariant(render: Renderer, results: seq<Retrieved>, items: seq<Item>, truncated: bool,
                                  maxContextChars: int, maxItems: int, maxChunkChars: int)
  {
    && |items| <= maxItems && IsPrefix(render, results, items, maxContextChars, maxChunkChars)
    && (items != [] ==> FitsContext(render, items, truncated, maxContextChars))
    && (truncated ==> !EverythingFits(render, results, maxContextChars, maxItems, maxChunkChars))
    && (!truncated ==>
          && |results| <= maxItems && items == FullItems(results)[..|items|]
          && forall i | 0 <= i < |items| :: |results[i].text| <= maxChunkChars)
  }

  /** The body of the loop: the next result is included whole or cut, or `full` says that it cannot be. */
  method Include(render: Renderer, results: seq<Retrieved>, items: seq<Item>, truncated: bool, maxContextChars: int,
                 ghost maxItems: int, maxChunkChars: int) returns (included: seq<Item>, cut: bool, full: bool)
    requires Monotone(render) && |items| < maxItems && |items| < |results| && maxChunkChars > 0
    requires FormatInvariant(render, results, items, truncated, maxContextChars, maxItems, maxChunkChars)
    ensures FormatInvariant(render, results, included, cut, maxContextChars, maxItems, maxChunkChars)
    ensures if full then
              included == items && cut && NothingMoreFits(render, results, items, maxContextChars, maxChunkChars)
            else |included| == |items| + 1
  {
    var i := |items|;
    var item := Item(i + 1, results[i], Truncate(results[i].text, maxChunkChars));
    if FitsContext(render, items + [item], truncated, maxContextChars) {
      TakeWhole(render, results, items, truncated, item, maxContextChars, maxItems, maxChunkChars);
      return items + [item], truncated || |results[i].text| > maxChunkChars, false;
    }
    MustCut(render, results, items, truncated, item, maxContextChars, maxItems, maxChunkChars);
    var available := maxContextChars - |render(items + [Item(i + 1, results[i], "")], true)|;
    if available <= 0 {
      return items, true, true;
    }
    var limit := if maxChunkChars < available then maxChunkChars else available;
    item := Item(i + 1, results[i], Truncate(results[i].text, limit));
    if !FitsContext(render, items + [item], true, maxContextChars) {
      return items, true, true;
    }
    TakeCut(render, results, items, item, maxContextChars, maxItems, maxChunkChars);
    return items + [item], true, false;
  }

  /** `render` stands for the JSON rendering of the payload, `Json(notice)`. */
  method FormatUntrustedContext(render: Renderer, results: seq<Retrieved>, maxContextChars: int, maxItems: int,
                                maxChunkChars: int)
    returns (rendered: Result<string>, ghost items: seq<Item>, ghost truncated: bool)
    requires Monotone(render)
    ensures rendered.Err? <==> maxContextChars <= 0 || maxItems <= 0 || maxChunkChars <= 0
    ensures rendered.Ok? ==>
      && rendered.value == render(items, truncated)
      && (items != [] ==> |rendered.value| <= maxContextChars)
      && |items| <= maxItems && IsPrefix(render, results, items, maxContextChars, maxChunkChars)
      && (forall i | 0 <= i < |items| ::
            && items[i].sourceIndex == i + 1 && items[i].source == results[i] && |items[i].text| <= maxChunkChars
            && (!truncated ==> items[i].text == results[i].text))
      && (|items| < |results| && |items| < maxItems ==>
            NothingMoreFits(render, results, items, maxContextChars, maxChunkChars))
      && (!truncated <==> EverythingFits(render, results, maxContextChars, maxItems, maxChunkChars))
      && (!truncated ==> items == FullItems(results))
  {
    items, truncated := [], false;
    if maxContextChars <= 0 || maxItems <= 0 || maxChunkChars <= 0 {
      return Err("must be a positive integer."), items, truncated;
    }
    var included: seq<Item> := [];
    var cut := |results| > maxItems;
    var n := if |results| > maxItems then maxItems else |results|;
    for i := 0 to n
      invariant |included| == i
      invariant FormatInvariant(render, results, included, cut, maxContextChars, maxItems, maxChunkChars)
    {
      var full: bool;
      included, cut, full := Include(render, results, included, cut, maxContextChars, maxItems, maxChunkChars);
      if full {
        break;
      }
    }
    items, truncated := included, cut;
    Finished(render, results, included, cut, maxContextChars, maxItems, maxChunkChars);
    rendered := Ok(render(included, cut));
  }

  lemma {:induction false} TakeWhole(render: Renderer, results: seq<Retrieved>, items: seq<Item>, truncated: bool,
                                     item: Item, maxContextChars: int, maxItems: int, maxChunkChars: int)
    requires Monotone(render)
    requires FormatInvariant(render, results, items, truncated, maxContextChars, maxItems, maxChunkChars)
    requires |items| < maxItems && |items| < |results| && maxChunkChars > 0
    requires item == CutItem(results, |items|, maxChunkChars)
    requires FitsContext(render, items + [item], truncated, maxContextChars)
    ensures FormatInvariant(render, results, items + [item], truncated || |results[|items|].text| > maxChunkChars,
                            maxContextChars, maxItems, maxChunkChars)
  {
    var r, cut := results[|items|], truncated || |results[|items|].text| > maxChunkChars;
    assert r in results;
    PrefixSnoc(render, results, items, item, maxContextChars, maxChunkChars);
    assert |render(items + [item], cut)| <= maxContextChars;
    if !cut {
      assert item == FullItems(results)[|items|];
      assert items + [item] == FullItems(results)[..|items| + 1];
    }
  }

  lemma {:induction false} PrefixSnoc(render: Renderer, results: seq<Retrieved>, items: seq<Item>, item: Item,
                                      maxContextChars: int, maxChunkChars: int)
    requires IsPrefix(render, results, items, maxContextChars, maxChunkChars) && |items| < |results|
    requires IsNext(render, results, items, item, maxContextChars, maxChunkChars)
    ensures IsPrefix(render, results, items + [item], maxContextChars, maxChunkChars)
  {
    forall i | 0 <= i < |items| + 1
      ensures IsNext(render, results, (items + [item])[..i], (items + [item])[i], maxContextChars, maxChunkChars)
    {
      assert (items + [item])[..i] == items[..i];
      assert items[..|items|] == items;
    }
  }

  lemma {:induction false} TakeCut(render: Renderer, results: seq<Retrieved>, items: seq<Item>, item: Item,
                                   maxContextChars: int, maxItems: int, maxChunkChars: int)
    requires FormatInvariant(render, results, items, true, maxContextChars, maxItems, maxChunkChars)
    requires |items| < maxItems && |items| < |results|
    requires !FitsContext(render, items + [CutItem(results, |items|, maxChunkChars)], false, maxContextChars)
    requires 0 < Room(render, results, items, maxContextChars)
    requires item == CutItem(results, |items|, Smaller(maxChunkChars, Room(render, results, items, maxContextChars)))
    requires FitsContext(render, items + [item], true, maxContextChars)
    ensures FormatInvariant(render, results, items + [item], true, maxContextChars, maxItems, maxChunkChars)
  {
    PrefixSnoc(render, results, items, item, maxContextChars, maxChunkChars);
  }

  lemma {:induction false} Finished(render: Renderer, results: seq<Retrieved>, items: seq<Item>, truncated: bool,
                                    maxContextChars: int, maxItems: int, maxChunkChars: int)
    requires FormatInvariant(render, results, items, truncated, maxContextChars, maxItems, maxChunkChars)
    requires truncated || |items| == |results|
    ensures !truncated <==> EverythingFits(render, results, maxContextChars, maxItems, maxChunkChars)
    ensures !truncated ==> items == FullItems(results)
  {
    if !truncated {
      assert FullItems(results)[..|results|] == FullItems(results);
      forall r | r in results ensures |r.text| <= maxChunkChars {
        var i :| 0 <= i < |results| && results[i] == r;
      }
    }
  }

  /** If the next result does not fit at the chunk limit, then not everything fits. */
  lemma {:induction false} MustCut(render: Renderer, results: seq<Retrieved>, items: seq<Item>, truncated: bool,
                                   item: Item, maxContextChars: int, maxItems: int, maxChunkChars: int)
    requires Monotone(render)
    requires FormatInvariant(render, results, items, truncated, maxContextChars, maxItems, maxChunkChars)
    requires |items| < maxItems && |items| < |results| && maxChunkChars > 0
    requires item == CutItem(results, |items|, maxChunkChars)
    requires !FitsContext(render, items + [item], truncated, maxContextChars)
    ensures FormatInvariant(render, results, items, true, maxContextChars, maxItems, maxChunkChars)
    ensures !FitsContext(render, items + [item], false, maxContextChars)
  {
    var r := results[|items|];
    assert r in results;
    if !truncated && |r.text| <= maxChunkChars {
      var k := |items| + 1;
      assert items + [item] == FullItems(results)[..k];
    }
  }
}
