/** Keyword/value connection strings: splitting them the way libpq does, and hiding the passwords in them. */
module DsnLexer {
  import opened Common
  import Text

  /** One setting as it is spelt: the space before it, the key up to the equals sign, the space after that, the
      value. */
  datatype Item = Item(gap: string, key: string, pad: string, value: string)

  function Spelling(it: Item): string {
    Front(it) + it.value
  }

  /** The part of the spelling in front of the value. */
  function Front(it: Item): string {
    it.gap + it.key + "=" + it.pad
  }

  function Render(items: seq<Item>, tail: string): string {
    if items == [] then tail else Spelling(items[0]) + Render(items[1..], tail)
  }

  // ---------- characters and keys ----------

  predicate IsLibpqSpace(c: char) {
    c in {' ', '\t', '\n', '\r', '\U{000B}', '\U{000C}'}
  }

  predicate IsASCIIAlpha(c: char) {
    'a' <= c <= 'z' || 'A' <= c <= 'Z'
  }

  predicate IsLibpqKeyword(s: string) {
    s != "" && (IsASCIIAlpha(s[0]) || s[0] == '_')
    && forall i :: 1 <= i < |s| ==> IsASCIIAlpha(s[i]) || '0' <= s[i] <= '9' || s[i] == '_'
  }

  /** On keywords, which are ASCII, folding case is lowering it. */
  predicate IsSecretKey(key: string) {
    Text.Lower(Text.Trim(key)) == "password" || Text.Lower(Text.Trim(key)) == "sslpassword"
  }

  // ---------- the lexer ----------

  function From(s: string, at: nat): (r: string)
    requires at <= |s|
    ensures |r| == |s| - at
  {
    s[at..]
  }

  function Part(s: string, at: nat, end: nat): (r: string)
    requires at <= end <= |s|
    ensures |r| == end - at
  {
    s[at..end]
  }

  function SpaceLen(s: string): (n: nat)
    ensures n <= |s|
    ensures forall i :: 0 <= i < n ==> IsLibpqSpace(s[i])
    ensures n < |s| ==> !IsLibpqSpace(s[n])
  {
    if s != "" && IsLibpqSpace(s[0]) then 1 + SpaceLen(s[1..]) else 0
  }

  function EqualsAt(s: string): (r: Option<nat>)
    ensures r.Some? ==> r.value < |s| && s[r.value] == '=' && forall j :: 0 <= j < r.value ==> s[j] != '='
  {
    if s == "" then None
    else if s[0] == '=' then Some(0)
    else Plus(1, EqualsAt(s[1..]))
  }

  function Plus(n: nat, r: Option<nat>): Option<nat> {
    match r case None => None case Some(m) => Some(n + m)
  }

  /** The length of a quoted value after its opening quote, the closing one included. */
  function QuotedLen(s: string): (r: Option<nat>)
    ensures r.Some? ==> 0 < r.value <= |s|
  {
    if s == "" then None
    else if s[0] == '\'' then Some(1)
    else if s[0] == '\\' then if |s| < 2 then None else Plus(2, QuotedLen(s[2..]))
    else Plus(1, QuotedLen(s[1..]))
  }

  function PlainLen(s: string): (r: Option<nat>)
    ensures r.Some? ==> r.value <= |s|
  {
    if s == "" || IsLibpqSpace(s[0]) then Some(0)
    else if s[0] == '\\' then if |s| < 2 then None else Plus(2, PlainLen(s[2..]))
    else Plus(1, PlainLen(s[1..]))
  }

  function ValueLen(s: string): (r: Option<nat>)
    ensures r.Some? ==> r.value <= |s|
  {
    if s != "" && s[0] == '\'' then Plus(1, QuotedLen(s[1..])) else PlainLen(s)
  }

  datatype Token = End | Bad | Got(item: Item, rest: string)

  /** The setting of `s` whose key, equals sign, value and end are at the given places. */
  function Cut(s: string, key: nat, equals: nat, value: nat, end: nat): Item
    requires key <= equals < value <= end <= |s|
  {
    Item(Part(s, 0, key), Part(s, key, equals), Part(s, equals + 1, value), Part(s, value, end))
  }

  function First(s: string): (t: Token)
    ensures t.Got? ==> |t.rest| < |s|
  {
    var key := SpaceLen(s);
    if key == |s| then End
    else
      match EqualsAt(From(s, key))
      case None => Bad
      case Some(e) =>
        if !IsLibpqKeyword(Text.Trim(Part(s, key, key + e))) then Bad
        else
          var value := key + e + 1 + SpaceLen(From(s, key + e + 1));
          match ValueLen(From(s, value))
          case None => Bad
          case Some(n) => Got(Cut(s, key, key + e, value, value + n), From(s, value + n))
  }

  datatype Lexed = Failed | Lexed(items: seq<Item>, tail: string)

  function Prepend(items: seq<Item>, r: Lexed): Lexed {
    match r case Failed => Failed case Lexed(more, tail) => Lexed(items + more, tail)
  }

  function Lex(s: string): Lexed
    decreases |s|
  {
    match First(s)
    case End => Lexed([], s)
    case Bad => Failed
    case Got(it, rest) => Prepend([it], Lex(rest))
  }

  // ---------- redaction ----------

  function HideOne(it: Item): Item {
    if IsSecretKey(it.key) then it.(value := "***") else it
  }

  function Hide(items: seq<Item>): seq<Item> {
    if items == [] then [] else [HideOne(items[0])] + Hide(items[1..])
  }

  function Redact(s: string): Option<string> {
    match Lex(s) case Failed => None case Lexed(items, tail) => Some(Render(Hide(items), tail))
  }

  // ---------- the program's cursor loop ----------

  method SkipSpaces(dsn: string, from: nat) returns (to: nat)
    requires from <= |dsn|
    ensures to == from + SpaceLen(From(dsn, from)) && to <= |dsn|
  {
    to := from;
    while to < |dsn| && IsLibpqSpace(dsn[to])
      invariant from <= to <= |dsn|
      invariant from + SpaceLen(dsn[from..]) == to + SpaceLen(dsn[to..])
    {
      assert dsn[to..][1..] == dsn[to + 1..];
      to := to + 1;
    }
  }

  lemma QuotedStep(dsn: string, at: nat)
    requires at < |dsn|
    ensures QuotedLen(From(dsn, at)) ==
            if dsn[at] == '\'' then Some(1)
            else if dsn[at] != '\\' then Plus(1, QuotedLen(From(dsn, at + 1)))
            else if at + 2 <= |dsn| then Plus(2, QuotedLen(From(dsn, at + 2))) else None
  {
    var here := dsn[at..];
    assert here[1..] == dsn[at + 1..];
    assert at + 2 <= |dsn| ==> here[2..] == dsn[at + 2..];
  }

  method QuotedEnd(dsn: string, opening: nat) returns (valueEnd: nat, ok: bool)
    requires opening < |dsn|
    ensures (if ok then Some(valueEnd - opening) else None) == Plus(1, QuotedLen(From(dsn, opening + 1)))
    ensures ok ==> opening < valueEnd <= |dsn|
  {
    hide QuotedLen, From;
    valueEnd := opening + 1;
    var closed := false;
    NothingQuoted(dsn);
    while valueEnd < |dsn| && !closed
      invariant opening < valueEnd <= |dsn| + 1
      invariant !closed && valueEnd <= |dsn| ==>
                  QuotedLen(From(dsn, opening + 1)) == Plus(valueEnd - opening - 1, QuotedLen(From(dsn, valueEnd)))
      invariant !closed && valueEnd > |dsn| ==> QuotedLen(From(dsn, opening + 1)) == None
      invariant closed ==> valueEnd <= |dsn| && QuotedLen(From(dsn, opening + 1)) == Some(valueEnd - opening - 1)
      decreases |dsn| - valueEnd, if closed then 0 else 1
    {
      QuotedStep(dsn, valueEnd);
      match dsn[valueEnd]
      case '\\' => valueEnd := valueEnd + 2;
      case '\'' => valueEnd := valueEnd + 1; closed := true;
      case _ => valueEnd := valueEnd + 1;
    }
    ok := closed && !(valueEnd > |dsn|);
  }

  lemma NothingQuoted(dsn: string)
    ensures QuotedLen(From(dsn, |dsn|)) == None
  {
  }

  lemma PlainStep(dsn: string, at: nat)
    requires at < |dsn| && !IsLibpqSpace(dsn[at])
    ensures PlainLen(From(dsn, at)) ==
            if dsn[at] != '\\' then Plus(1, PlainLen(From(dsn, at + 1)))
            else if at + 2 <= |dsn| then Plus(2, PlainLen(From(dsn, at + 2))) else None
  {
    var here := dsn[at..];
    assert here[1..] == dsn[at + 1..];
    assert at + 2 <= |dsn| ==> here[2..] == dsn[at + 2..];
  }

  lemma PlainDone(dsn: string, at: nat)
    requires at <= |dsn| && (at < |dsn| ==> IsLibpqSpace(dsn[at]))
    ensures PlainLen(From(dsn, at)) == Some(0)
  {
  }

  method PlainEnd(dsn: string, start: nat) returns (valueEnd: nat, ok: bool)
    requires start <= |dsn|
    ensures (if ok then Some(valueEnd - start) else None) == PlainLen(From(dsn, start))
    ensures ok ==> start <= valueEnd <= |dsn|
  {
    hide PlainLen, From, IsLibpqSpace;
    valueEnd := start;
    while valueEnd < |dsn| && !IsLibpqSpace(dsn[valueEnd])
      invariant start <= valueEnd <= |dsn|
      invariant PlainLen(From(dsn, start)) == Plus(valueEnd - start, PlainLen(From(dsn, valueEnd)))
    {
      PlainStep(dsn, valueEnd);
      if dsn[valueEnd] == '\\' {
        if valueEnd + 2 > |dsn| { return valueEnd, false; }
        valueEnd := valueEnd + 2;
      } else {
        valueEnd := valueEnd + 1;
      }
    }
    PlainDone(dsn, valueEnd);
    ok := true;
  }

  /** The next setting from `cursor`, which is not at a space: where its value starts and ends. */
  method NextItem(dsn: string, ghost s: string, cursor: nat)
    returns (ok: bool, key: string, valueStart: nat, valueEnd: nat, ghost it: Item)
    requires cursor < |dsn| && |s| <= |dsn| && s == From(dsn, |dsn| - |s|)
    requires cursor == |dsn| - |s| + SpaceLen(s)
    ensures ok ==> cursor < valueStart <= valueEnd <= |dsn|
    ensures ok ==> First(s) == Got(it, From(dsn, valueEnd)) && key == Text.Trim(it.key)
    ensures ok ==> it.value == Part(dsn, valueStart, valueEnd)
    ensures ok ==> Front(it) == Part(dsn, |dsn| - |s|, valueStart)
    ensures !ok ==> First(s).Bad?
  {
    hide *;
    ghost var from := |dsn| - |s|;
    it := Item("", "", "", "");
    key, valueStart, valueEnd := "", cursor, cursor;
    var relativeEquals := IndexEquals(dsn, cursor);
    Within(dsn, s, cursor);
    if relativeEquals.None? {
      FirstBy(s);
      return false, key, valueStart, valueEnd, it;
    }
    var equals := cursor + relativeEquals.value;
    Within(dsn, s, equals);
    Between(dsn, s, cursor, equals);
    key := Text.Trim(Part(dsn, cursor, equals));
    if !IsLibpqKeyword(key) {
      FirstBy(s);
      return false, key, valueStart, valueEnd, it;
    }
    Within(dsn, s, equals + 1);
    valueStart := SkipSpaces(dsn, equals + 1);
    Within(dsn, s, valueStart);
    valueEnd, ok := ValueEnd(dsn, valueStart);
    FirstBy(s);
    if ok {
      it := Cut(s, cursor - from, equals - from, valueStart - from, valueEnd - from);
      Within(dsn, s, valueEnd);
      Between(dsn, s, valueStart, valueEnd);
      Between(dsn, s, from, valueStart);
      CutSpelling(s, cursor - from, equals - from, valueStart - from, valueEnd - from);
      CutParts(s, cursor - from, equals - from, valueStart - from, valueEnd - from);
    }
  }

  /** Positions in the text and in what is left of it. */
  lemma Within(dsn: string, s: string, at: nat)
    requires |s| <= |dsn| && s == From(dsn, |dsn| - |s|) && |dsn| - |s| <= at <= |dsn|
    ensures From(s, at - (|dsn| - |s|)) == From(dsn, at)
    ensures at < |dsn| ==> s[at - (|dsn| - |s|)] == dsn[at]
  {
  }

  lemma Between(dsn: string, s: string, at: nat, end: nat)
    requires |s| <= |dsn| && s == From(dsn, |dsn| - |s|) && |dsn| - |s| <= at <= end <= |dsn|
    ensures Part(s, at - (|dsn| - |s|), end - (|dsn| - |s|)) == Part(dsn, at, end)
  {
  }

  lemma CutParts(s: string, key: nat, equals: nat, value: nat, end: nat)
    requires key <= equals < value <= end <= |s|
    ensures var it := Cut(s, key, equals, value, end); it.key == Part(s, key, equals) && it.value == Part(s, value, end)
  {
  }

  /** How the first setting is found, step by step. */
  lemma FirstBy(s: string)
    ensures var key := SpaceLen(s);
            key < |s| ==>
              if EqualsAt(From(s, key)).None? then First(s) == Bad
              else
                var equals := key + EqualsAt(From(s, key)).value;
                if !IsLibpqKeyword(Text.Trim(Part(s, key, equals))) then First(s) == Bad
                else
                  var value := equals + 1 + SpaceLen(From(s, equals + 1));
                  if ValueLen(From(s, value)).None? then First(s) == Bad
                  else
                    var end := value + ValueLen(From(s, value)).value;
                    First(s) == Got(Cut(s, key, equals, value, end), From(s, end))
  {
    hide SpaceLen, EqualsAt, ValueLen, IsLibpqKeyword, Text.Trim, From, Part, Cut;
  }

  /** The parts of a setting, one after the other, are the text they were cut from. */
  lemma CutSpelling(s: string, key: nat, equals: nat, value: nat, end: nat)
    requires key <= equals < value <= end <= |s| && s[equals] == '='
    ensures var it := Cut(s, key, equals, value, end);
            Front(it) == Part(s, 0, value) && Spelling(it) + From(s, end) == s
  {
    assert s[..equals] == s[..key] + s[key..equals];
    assert s[..equals + 1] == s[..equals] + "=";
    assert s[..value] == s[..equals + 1] + s[equals + 1..value];
    assert s[..end] == s[..value] + s[value..end];
  }

  method ValueEnd(dsn: string, valueStart: nat) returns (valueEnd: nat, ok: bool)
    requires valueStart <= |dsn|
    ensures (if ok then Some(valueEnd - valueStart) else None) == ValueLen(From(dsn, valueStart))
    ensures ok ==> valueStart <= valueEnd <= |dsn|
  {
    if valueStart < |dsn| && dsn[valueStart] == '\'' {
      assert dsn[valueStart..][1..] == dsn[valueStart + 1..];
      valueEnd, ok := QuotedEnd(dsn, valueStart);
    } else {
      valueEnd, ok := PlainEnd(dsn, valueStart);
    }
  }

  method IndexEquals(dsn: string, from: nat) returns (r: Option<nat>)
    requires from <= |dsn|
    ensures r == EqualsAt(From(dsn, from))
    ensures r.Some? ==> from + r.value < |dsn| && dsn[from + r.value] == '='
  {
    var i := from;
    while i < |dsn|
      invariant from <= i <= |dsn|
      invariant EqualsAt(dsn[from..]) == Plus(i - from, EqualsAt(dsn[i..]))
    {
      if dsn[i] == '=' { return Some(i - from); }
      assert dsn[i..][1..] == dsn[i + 1..];
      i := i + 1;
    }
    return None;
  }

  lemma RenderAppend(items: seq<Item>, more: seq<Item>, tail: string)
    ensures Render(items + more, tail) == Render(items, Render(more, tail))
  {
    if items == [] {
      assert items + more == more;
    } else {
      assert (items + more)[1..] == items[1..] + more;
    }
  }

  /** What was rendered stays in front of whatever follows. */
  lemma RenderTail(items: seq<Item>, tail: string)
    ensures Render(items, tail) == Render(items, "") + tail
  {
    if items != [] { RenderTail(items[1..], tail); }
  }

  lemma {:induction false} HideOneMore(items: seq<Item>, it: Item)
    ensures Hide(items + [it]) == Hide(items) + [HideOne(it)]
  {
    hide HideOne;
    if items == [] {
      assert [it][1..] == [] && items + [it] == [it];
    } else {
      HideOneMore(items[1..], it);
      assert (items + [it])[1..] == items[1..] + [it];
    }
  }

  /** Hiding one more setting, and writing it after the others. */
  lemma HideAppend(items: seq<Item>, it: Item)
    ensures Render(Hide(items + [it]), "") == Render(Hide(items), "") + Spelling(HideOne(it))
  {
    hide HideOne, Spelling, Hide;
    var h := HideOne(it);
    HideOneMore(items, it);
    RenderAppend(Hide(items), [h], "");
    assert [h][1..] == [];
    assert Render([h], "") == Spelling(h) + "" == Spelling(h);
    RenderTail(Hide(items), Spelling(h));
  }

  /** What one more setting adds to the output: its own text, the value replaced when it is secret. */
  lemma HiddenSpelling(it: Item, front: string)
    requires Front(it) == front
    ensures Spelling(HideOne(it)) == front + if IsSecretKey(it.key) then "***" else it.value
  {
    hide IsSecretKey, Front;
    assert Front(it.(value := "***")) == Front(it) by { SameFront(it, "***"); }
  }

  lemma SameFront(it: Item, value: string)
    ensures Front(it.(value := value)) == Front(it)
  {
  }

  lemma PrependMore(s: string, items: seq<Item>, rest: string)
    requires Lex(s) == Prepend(items, Lex(rest)) && First(rest).Got?
    ensures Lex(s) == Prepend(items + [First(rest).item], Lex(First(rest).rest))
  {
    hide First;
    var tok := First(rest);
    assert Lex(rest) == Prepend([tok.item], Lex(tok.rest));
    match Lex(tok.rest)
    case Failed =>
    case Lexed(more, tail) => assert items + ([tok.item] + more) == items + [tok.item] + more;
  }

  lemma WriteTail(dsn: string, out: string, last: nat, from: nat)
    requires last <= from <= |dsn|
    ensures out + From(dsn, last) == out + Part(dsn, last, from) + From(dsn, from)
  {
    assert dsn[last..] == dsn[last..from] + dsn[from..];
  }

  lemma WriteStars(dsn: string, out: string, last: nat, from: nat, start: nat, end: nat)
    requires last <= from <= start <= end <= |dsn|
    ensures out + Part(dsn, last, start) + "***" + Part(dsn, end, end) ==
            (out + Part(dsn, last, from)) + (Part(dsn, from, start) + "***")
  {
    assert dsn[last..start] == dsn[last..from] + dsn[from..start];
    assert dsn[end..end] == "";
  }

  lemma WriteOn(dsn: string, out: string, last: nat, from: nat, start: nat, end: nat)
    requires last <= from <= start <= end <= |dsn|
    ensures out + Part(dsn, last, end)
         == (out + Part(dsn, last, from)) + (Part(dsn, from, start) + Part(dsn, start, end))
  {
    assert dsn[from..end] == dsn[from..start] + dsn[start..end];
    assert dsn[last..end] == dsn[last..from] + dsn[from..end];
  }

  /** How far the loop has come: the settings read, and what is written or is to be copied up to the cursor. */
  ghost predicate SoFar(dsn: string, items: seq<Item>, out: string, lastWritten: nat, cursor: nat) {
    && lastWritten <= cursor <= |dsn|
    && Lex(dsn) == Prepend(items, Lex(From(dsn, cursor)))
    && out + Part(dsn, lastWritten, cursor) == Render(Hide(items), "")
  }

  lemma AtStart(dsn: string)
    ensures SoFar(dsn, [], "", 0, 0)
  {
    hide Lex;
    assert From(dsn, 0) == dsn;
    match Lex(dsn) { case Failed => case Lexed(more, tail) => assert [] + more == more; }
  }

  lemma AtEnd(dsn: string, items: seq<Item>, out: string, lastWritten: nat, cursor: nat)
    requires SoFar(dsn, items, out, lastWritten, cursor) && SpaceLen(From(dsn, cursor)) == |dsn| - cursor
    ensures Redact(dsn) == Some(out + From(dsn, lastWritten))
  {
    hide SpaceLen, Render, Hide, From, Part, Lex, First;
    var s := From(dsn, cursor);
    OnlySpace(s);
    RenderTail(Hide(items), s);
    assert items + [] == items;
    WriteTail(dsn, out, lastWritten, cursor);
  }

  lemma AtFault(dsn: string, items: seq<Item>, out: string, lastWritten: nat, cursor: nat)
    requires SoFar(dsn, items, out, lastWritten, cursor) && First(From(dsn, cursor)).Bad?
    ensures Redact(dsn) == None
  {
    hide First, From, Part, Render, Hide;
  }

  /** One more setting: its value is skipped and the stars written when it is secret, otherwise it is left to be
      copied. */
  lemma PastItem(dsn: string, items: seq<Item>, out: string, lastWritten: nat, cursor: nat, it: Item, start: nat,
          end: nat)
    requires SoFar(dsn, items, out, lastWritten, cursor) && cursor <= start <= end <= |dsn|
    requires First(From(dsn, cursor)) == Got(it, From(dsn, end))
    requires it.value == Part(dsn, start, end) && Front(it) == Part(dsn, cursor, start)
    ensures if IsSecretKey(it.key) then SoFar(dsn, items + [it], out + Part(dsn, lastWritten, start) + "***", end, end)
            else SoFar(dsn, items + [it], out, lastWritten, end)
  {
    hide First, Lex, IsSecretKey, Render, Hide, HideOne, Spelling, Front, From, Part;
    PrependMore(dsn, items, From(dsn, cursor));
    HideAppend(items, it);
    HiddenSpelling(it, Part(dsn, cursor, start));
    WriteStars(dsn, out, lastWritten, cursor, start, end);
    WriteOn(dsn, out, lastWritten, cursor, start, end);
  }

  method RedactKeywordValueDSN(dsn: string) returns (redacted: string, ok: bool)
    ensures Redact(dsn) == if ok then Some(redacted) else None
    ensures !ok ==> redacted == ""
  {
    hide *;
    var out := "";
    var lastWritten: nat, cursor: nat := 0, 0;
    ghost var items: seq<Item> := [];
    AtStart(dsn);
    while cursor < |dsn|
      invariant lastWritten <= cursor <= |dsn| && SoFar(dsn, items, out, lastWritten, cursor)
    {
      ghost var from, s := cursor, From(dsn, cursor);
      cursor := SkipSpaces(dsn, cursor);
      if cursor == |dsn| {
        AtEnd(dsn, items, out, lastWritten, from);
        return out + From(dsn, lastWritten), true;
      }
      ghost var it: Item;
      var good, key, valueStart, valueEnd;
      good, key, valueStart, valueEnd, it := NextItem(dsn, s, cursor);
      if !good {
        AtFault(dsn, items, out, lastWritten, from);
        return "", false;
      }
      PastItem(dsn, items, out, lastWritten, from, it, valueStart, valueEnd);
      SecretTrimmed(it.key);
      if IsSecretKey(key) {
        out := out + Part(dsn, lastWritten, valueStart) + "***";
        lastWritten := valueEnd;
      }
      cursor := valueEnd;
      items := items + [it];
    }
    AllRead(dsn);
    AtEnd(dsn, items, out, lastWritten, cursor);
    return out + From(dsn, lastWritten), true;
  }

  lemma AllRead(dsn: string)
    ensures SpaceLen(From(dsn, |dsn|)) == 0
  {
  }

  lemma SecretTrimmed(key: string)
    ensures IsSecretKey(Text.Trim(key)) == IsSecretKey(key)
  {
    Text.TrimAgain(key);
  }

  lemma OnlySpace(s: string)
    requires SpaceLen(s) == |s|
    ensures First(s) == End && Lex(s) == Lexed([], s)
  {
  }

  // ---------- lexing undoes rendering, and the other way round ----------

  predicate StartsWithSpace(s: string) {
    s != "" && IsLibpqSpace(s[0])
  }

  /** A setting that the lexer reads back as it is when `rest` follows. */
  ghost predicate Reads(it: Item, rest: string) {
    && SpaceLen(it.gap) == |it.gap|
    && it.key != "" && !IsLibpqSpace(it.key[0]) && '=' !in it.key && IsLibpqKeyword(Text.Trim(it.key))
    && SpaceLen(it.pad) == |it.pad| && !StartsWithSpace(it.value)
    && ValueLen(it.value) == Some(|it.value|)
    && Delimited(it.value, rest)
  }

  /** A quoted value ends by itself; a plain one needs a space, or the end, after it. */
  predicate Delimited(value: string, rest: string) {
    rest == "" || (value != "" && (value[0] == '\'' || IsLibpqSpace(rest[0])))
  }

  ghost predicate WellFormed(items: seq<Item>, tail: string) {
    if items == [] then SpaceLen(tail) == |tail|
    else Reads(items[0], Render(items[1..], tail)) && WellFormed(items[1..], tail)
  }

  lemma {:induction false} SpaceThen(a: string, b: string)
    requires SpaceLen(a) == |a| && !StartsWithSpace(b)
    ensures SpaceLen(a + b) == |a|
  {
    if a == "" {
      assert a + b == b;
    } else {
      assert (a + b)[1..] == a[1..] + b;
      SpaceThen(a[1..], b);
    }
  }

  lemma {:induction false} SpacePrefix(s: string)
    ensures SpaceLen(s[..SpaceLen(s)]) == SpaceLen(s)
  {
    if StartsWithSpace(s) {
      SpacePrefix(s[1..]);
      assert s[..SpaceLen(s)][1..] == s[1..][..SpaceLen(s[1..])];
    }
  }

  lemma {:induction false} EqualsThen(a: string, b: string)
    requires '=' !in a
    ensures EqualsAt(a + "=" + b) == Some(|a|)
  {
    if a == "" {
      assert a + "=" + b == "=" + b;
    } else {
      assert (a + "=" + b)[1..] == a[1..] + "=" + b;
      EqualsThen(a[1..], b);
    }
  }

  lemma {:induction false} QuotedThen(a: string, b: string)
    requires QuotedLen(a) == Some(|a|)
    ensures QuotedLen(a + b) == Some(|a|)
    decreases |a|
  {
    if a[0] == '\\' {
      assert (a + b)[2..] == a[2..] + b;
      QuotedThen(a[2..], b);
    } else if a[0] != '\'' {
      assert (a + b)[1..] == a[1..] + b;
      QuotedThen(a[1..], b);
    }
  }

  lemma {:induction false} PlainThen(a: string, b: string)
    requires PlainLen(a) == Some(|a|) && (b == "" || IsLibpqSpace(b[0]))
    ensures PlainLen(a + b) == Some(|a|)
    decreases |a|
  {
    if a == "" {
      assert a + b == b;
    } else if a[0] == '\\' {
      assert (a + b)[2..] == a[2..] + b;
      PlainThen(a[2..], b);
    } else {
      assert (a + b)[1..] == a[1..] + b;
      PlainThen(a[1..], b);
    }
  }

  lemma {:induction false} QuotedPrefix(s: string)
    requires QuotedLen(s).Some?
    ensures var n := QuotedLen(s).value; QuotedLen(s[..n]) == Some(n)
    decreases |s|
  {
    var n := QuotedLen(s).value;
    if s[0] == '\\' {
      QuotedPrefix(s[2..]);
      assert s[..n][2..] == s[2..][..n - 2];
    } else if s[0] != '\'' {
      QuotedPrefix(s[1..]);
      assert s[..n][1..] == s[1..][..n - 1];
    }
  }

  lemma {:induction false} PlainPrefix(s: string)
    requires PlainLen(s).Some?
    ensures var n := PlainLen(s).value; PlainLen(s[..n]) == Some(n) && (n == |s| || IsLibpqSpace(s[n]))
    decreases |s|
  {
    var n := PlainLen(s).value;
    if s == "" || IsLibpqSpace(s[0]) {
    } else if s[0] == '\\' {
      PlainPrefix(s[2..]);
      assert s[..n][2..] == s[2..][..n - 2];
    } else {
      PlainPrefix(s[1..]);
      assert s[..n][1..] == s[1..][..n - 1];
    }
  }

  lemma ValueThen(a: string, b: string)
    requires ValueLen(a) == Some(|a|) && Delimited(a, b)
    ensures ValueLen(a + b) == Some(|a|)
  {
    if a == "" {
      assert a + b == "";
    } else if a[0] == '\'' {
      assert (a + b)[1..] == a[1..] + b;
      QuotedThen(a[1..], b);
    } else {
      PlainThen(a, b);
    }
  }

  lemma ValuePrefix(s: string)
    requires ValueLen(s).Some? && !StartsWithSpace(s)
    ensures var n := ValueLen(s).value; ValueLen(s[..n]) == Some(n) && Delimited(s[..n], s[n..])
  {
    var n := ValueLen(s).value;
    if s != "" && s[0] == '\'' {
      QuotedPrefix(s[1..]);
      assert s[..n][1..] == s[1..][..n - 1];
    } else {
      PlainPrefix(s);
    }
  }

  /** Where the parts of a setting are in its text. */
  lemma Places(it: Item, rest: string)
    ensures var s := Spelling(it) + rest;
            var key := |it.gap|;
            var equals := key + |it.key|;
            var value := equals + 1 + |it.pad|;
            var end := value + |it.value|;
            && end + |rest| == |s|
            && it == Cut(s, key, equals, value, end) && it.key == Part(s, key, equals)
            && s == it.gap + From(s, key) && From(s, key) == it.key + "=" + From(s, equals + 1)
            && From(s, equals + 1) == it.pad + From(s, value) && From(s, value) == it.value + rest
            && From(s, end) == rest
  {
    hide Spelling, From, Part, Cut;
    var v := it.value + rest;
    var w := it.pad + v;
    var k := it.key + ("=" + w);
    Unfolded(it, rest);
    var s := it.gap + k;
    var key, equals := |it.gap|, |it.gap| + |it.key|;
    var value := equals + 1 + |it.pad|;
    After(it.gap, k);
    After(it.key, "=" + w);
    After("=", w);
    After(it.pad, v);
    After(it.value, rest);
    Twofold(s, key, |it.key|);
    Twofold(s, equals, 1);
    Twofold(s, equals + 1, |it.pad|);
    Twofold(s, value, |it.value|);
    assert it.key + "=" + w == k;
    CutIs(s, key, equals, value, value + |it.value|);
  }

  lemma Unfolded(it: Item, rest: string)
    ensures Spelling(it) + rest == it.gap + (it.key + ("=" + (it.pad + (it.value + rest))))
  {
  }

  lemma After(a: string, b: string)
    ensures From(a + b, |a|) == b && Part(a + b, 0, |a|) == a
  {
  }

  lemma Twofold(s: string, at: nat, more: nat)
    requires at + more <= |s|
    ensures From(From(s, at), more) == From(s, at + more) && Part(From(s, at), 0, more) == Part(s, at, at + more)
  {
  }

  lemma CutIs(s: string, key: nat, equals: nat, value: nat, end: nat)
    requires key <= equals < value <= end <= |s|
    ensures Cut(s, key, equals, value, end) ==
            Item(Part(s, 0, key), Part(s, key, equals), Part(s, equals + 1, value), Part(s, value, end))
  {
    hide Part;
  }

  /** A setting in front of what may follow it is the first thing read. */
  lemma FirstReads(it: Item, rest: string)
    requires Reads(it, rest)
    ensures First(Spelling(it) + rest) == Got(it, rest)
  {
    hide SpaceLen, EqualsAt, ValueLen, IsLibpqKeyword, Text.Trim, IsLibpqSpace, Spelling, From, Part, Cut, First;
    Places(it, rest);
    var s := Spelling(it) + rest;
    var key, equals := |it.gap|, |it.gap| + |it.key|;
    var value := equals + 1 + |it.pad|;
    NotSpaceFirst(it, From(s, key), From(s, equals + 1));
    SpaceThen(it.gap, From(s, key));
    EqualsThen(it.key, From(s, equals + 1));
    DelimitedStart(it.value, rest);
    SpaceThen(it.pad, From(s, value));
    ValueThen(it.value, rest);
    FirstBy(s);
  }

  lemma NotSpaceFirst(it: Item, keyed: string, rest: string)
    requires it.key != "" && !IsLibpqSpace(it.key[0]) && keyed == it.key + "=" + rest
    ensures !StartsWithSpace(keyed)
  {
    hide IsLibpqSpace;
    assert keyed[0] == it.key[0];
  }

  lemma DelimitedStart(value: string, rest: string)
    requires !StartsWithSpace(value) && Delimited(value, rest)
    ensures !StartsWithSpace(value + rest)
  {
    assert value != "" ==> (value + rest)[0] == value[0];
  }

  /** What is read first reads back. */
  lemma FirstIsRead(s: string)
    requires First(s).Got?
    ensures Reads(First(s).item, First(s).rest) && Spelling(First(s).item) + First(s).rest == s
  {
    hide SpaceLen, EqualsAt, ValueLen, IsLibpqKeyword, Text.Trim, IsLibpqSpace, Delimited, Spelling, First, Part,
      From, Cut;
    FirstBy(s);
    NotTheEnd(s);
    var it, rest := First(s).item, First(s).rest;
    var key := SpaceLen(s);
    var equals := key + EqualsAt(From(s, key)).value;
    var u := From(s, equals + 1);
    var value := equals + 1 + SpaceLen(u);
    var v := From(s, value);
    var end := value + ValueLen(v).value;
    GapRead(s, key, equals, value, end);
    PadRead(s, key, equals, value, end);
    KeyRead(s, key, equals, value, end);
    ValueRead(s, key, equals, value, end);
    CutSpelling(s, key, equals, value, end);
  }

  lemma NotTheEnd(s: string)
    requires First(s).Got?
    ensures SpaceLen(s) < |s|
  {
    hide SpaceLen, EqualsAt, ValueLen, IsLibpqKeyword, Text.Trim, From, Part, Cut;
  }

  lemma GapRead(s: string, key: nat, equals: nat, value: nat, end: nat)
    requires key <= equals < value <= end <= |s| && key == SpaceLen(s)
    ensures var gap := Cut(s, key, equals, value, end).gap; SpaceLen(gap) == |gap|
  {
    SpacePrefix(s);
  }

  lemma PadRead(s: string, key: nat, equals: nat, value: nat, end: nat)
    requires key <= equals < value <= end <= |s| && value == equals + 1 + SpaceLen(From(s, equals + 1))
    ensures var pad := Cut(s, key, equals, value, end).pad; SpaceLen(pad) == |pad|
    ensures !StartsWithSpace(From(s, value))
  {
    hide IsLibpqSpace;
    var u := From(s, equals + 1);
    SpacePrefix(u);
    assert u[..SpaceLen(u)] == s[equals + 1..value];
  }

  lemma KeyRead(s: string, key: nat, equals: nat, value: nat, end: nat)
    requires key <= equals < value <= end <= |s| && key == SpaceLen(s) && key < |s|
    requires EqualsAt(From(s, key)) == Some(equals - key)
    requires IsLibpqKeyword(Text.Trim(Part(s, key, equals)))
    ensures var it := Cut(s, key, equals, value, end);
            it.key != "" && !IsLibpqSpace(it.key[0]) && '=' !in it.key && it.key == Part(s, key, equals)
    ensures s[equals] == '='
  {
    hide IsLibpqSpace, Text.Trim, IsLibpqKeyword;
    TrimOfNothing();
    assert Part(s, key, equals) != "";
    forall j | 0 <= j < equals - key ensures Part(s, key, equals)[j] != '=' {
      assert From(s, key)[j] == Part(s, key, equals)[j];
    }
  }

  lemma ValueRead(s: string, key: nat, equals: nat, value: nat, end: nat)
    requires key <= equals < value <= end <= |s| && !StartsWithSpace(From(s, value))
    requires ValueLen(From(s, value)) == Some(end - value)
    ensures var v := Cut(s, key, equals, value, end).value;
            !StartsWithSpace(v) && ValueLen(v) == Some(|v|) && Delimited(v, From(s, end))
  {
    hide IsLibpqSpace, ValueLen;
    var v := From(s, value);
    ValuePrefix(v);
    assert v[..end - value] == s[value..end] && v[end - value..] == s[end..];
  }

  lemma TrimOfNothing()
    ensures !IsLibpqKeyword(Text.Trim(""))
  {
  }

  /** Settings in front of what may follow them are read first, and the rest after them. */
  lemma {:induction false} LexAfter(items: seq<Item>, tail: string)
    requires WellFormed(items, tail)
    ensures Lex(Render(items, tail)) == Lexed(items, tail)
  {
    hide First, Reads, Spelling;
    if items == [] {
      OnlySpace(tail);
    } else {
      var rest := Render(items[1..], tail);
      FirstReads(items[0], rest);
      LexAfter(items[1..], tail);
      assert [items[0]] + items[1..] == items;
    }
  }

  lemma {:induction false} LexBefore(s: string)
    requires Lex(s).Lexed?
    ensures WellFormed(Lex(s).items, Lex(s).tail) && Render(Lex(s).items, Lex(s).tail) == s
    decreases |s|
  {
    hide Reads, Spelling;
    match First(s)
    case End => SpacePrefix(s); assert s[..|s|] == s;
    case Got(it, rest) =>
      FirstIsRead(s);
      hide First;
      LexBefore(rest);
      assert ([it] + Lex(rest).items)[1..] == Lex(rest).items;
  }

  /** The lexer and the renderer are each other's inverse: a text has exactly the settings that spell it and that read
      back, and the lexer finds them whenever there are any. */
  lemma LexExactly(s: string, items: seq<Item>, tail: string)
    ensures Lex(s) == Lexed(items, tail) <==> (WellFormed(items, tail) && Render(items, tail) == s)
  {
    if Lex(s) == Lexed(items, tail) { LexBefore(s); }
    if WellFormed(items, tail) && Render(items, tail) == s { LexAfter(items, tail); }
  }

  // ---------- what redaction keeps and what it hides ----------

  /** The same text but for the values of secrets. */
  ghost predicate SameButSecrets(a: seq<Item>, b: seq<Item>) {
    |a| == |b| && forall i :: 0 <= i < |a| ==>
      a[i].gap == b[i].gap && a[i].key == b[i].key && a[i].pad == b[i].pad
      && (a[i].value == b[i].value || IsSecretKey(a[i].key))
  }

  /** The output says nothing about the secrets: two strings that differ in nothing else have the same one. */
  lemma SecretsDoNotShow(s: string, t: string)
    requires Lex(s).Lexed? && Lex(t).Lexed? && Lex(s).tail == Lex(t).tail
    requires SameButSecrets(Lex(s).items, Lex(t).items)
    ensures Redact(s) == Redact(t)
  {
    hide Lex, Render, Hide;
    HiddenAlike(Lex(s).items, Lex(t).items);
  }

  lemma {:induction false} HiddenAlike(a: seq<Item>, b: seq<Item>)
    requires SameButSecrets(a, b)
    ensures Hide(a) == Hide(b)
  {
    hide IsSecretKey;
    if a != [] { HiddenAlike(a[1..], b[1..]); }
  }

  /** Every secret is followed by a space or by the end of the text. */
  ghost predicate SecretsSeparated(items: seq<Item>, tail: string) {
    items == [] ||
    ((IsSecretKey(items[0].key) ==>
        var rest := Render(items[1..], tail); rest == "" || IsLibpqSpace(rest[0]))
     && SecretsSeparated(items[1..], tail))
  }

  /** Hiding changes neither whether anything follows nor what it starts with. */
  lemma HideKeepsStart(items: seq<Item>, tail: string)
    requires WellFormed(items, tail)
    ensures var a, b := Render(items, tail), Render(Hide(items), tail);
            (a == "" <==> b == "") && (a != "" ==> a[0] == b[0])
  {
    hide IsSecretKey, Spelling, SpaceLen, ValueLen, Text.Trim, IsLibpqKeyword, Delimited, IsLibpqSpace;
    if items != [] {
      SpellingStart(items[0], Render(items[1..], tail));
      SpellingStart(HideOne(items[0]), Render(Hide(items[1..]), tail));
    }
  }

  lemma SpellingStart(it: Item, rest: string)
    requires it.key != ""
    ensures Spelling(it) + rest != "" && (Spelling(it) + rest)[0] == if it.gap == "" then it.key[0] else it.gap[0]
  {
    var front := it.gap + it.key;
    assert Spelling(it) == front + "=" + it.pad + it.value;
  }

  lemma StarsRead()
    ensures PlainLen("***") == Some(3)
  {
    assert "***"[1..] == "**" && "**"[1..] == "*" && "*"[1..] == "";
    assert PlainLen("") == Some(0);
    assert PlainLen("*") == Some(1);
    assert PlainLen("**") == Some(2);
  }

  /** A hidden setting reads back unless it was a secret and something other than space followed. */
  lemma HiddenReads(it: Item, rest: string, hidden: string)
    requires Reads(it, rest)
    requires (rest == "" <==> hidden == "") && (rest != "" ==> rest[0] == hidden[0])
    requires IsSecretKey(it.key) ==> rest == "" || IsLibpqSpace(rest[0])
    ensures Reads(HideOne(it), hidden)
  {
    hide IsSecretKey, Text.Trim, IsLibpqKeyword, SpaceLen;
    StarsRead();
  }

  lemma RedactKeepsStart(t: string)
    requires Redact(t).Some?
    ensures var r := Redact(t).value; (t == "" <==> r == "") && (t != "" ==> r[0] == t[0])
  {
    hide Lex, First, Render, Hide;
    LexBefore(t);
    HideKeepsStart(Lex(t).items, Lex(t).tail);
  }

  lemma NoValue(it: Item, rest: string)
    requires Reads(it, "") && it.value != "" && ValueLen(it.value + rest) == None
    ensures First(Spelling(it) + rest) == Bad
  {
    hide SpaceLen, EqualsAt, ValueLen, IsLibpqKeyword, Text.Trim, IsLibpqSpace, Spelling, From, Part, Cut, First;
    Places(it, rest);
    var s := Spelling(it) + rest;
    var key, equals := |it.gap|, |it.gap| + |it.key|;
    NotSpaceFirst(it, From(s, key), From(s, equals + 1));
    SpaceThen(it.gap, From(s, key));
    EqualsThen(it.key, From(s, equals + 1));
    assert (it.value + rest)[0] == it.value[0];
    SpaceThen(it.pad, it.value + rest);
    FirstBy(s);
  }

  lemma StarsRunOn(hidden: string)
    requires hidden != "" && !IsLibpqSpace(hidden[0])
    ensures ValueLen("***" + hidden) == Plus(3, PlainLen(hidden))
    ensures PlainLen(hidden).Some? ==>
              var m := PlainLen(hidden).value;
              && 0 < m && !StartsWithSpace("***" + hidden[..m])
              && ValueLen("***" + hidden[..m]) == Some(3 + m) && Delimited("***" + hidden[..m], hidden[m..])
  {
    ThreeStars(hidden);
    if PlainLen(hidden).Some? {
      var m := PlainLen(hidden).value;
      PlainPrefix(hidden);
      ThreeStars(hidden[..m]);
    }
  }

  lemma {:induction false} OrdinaryThen(a: string, s: string)
    requires forall i :: 0 <= i < |a| ==> !IsLibpqSpace(a[i]) && a[i] != '\\'
    ensures PlainLen(a + s) == Plus(|a|, PlainLen(s))
  {
    hide IsLibpqSpace;
    if a == "" {
      assert a + s == s;
    } else {
      OrdinaryThen(a[1..], s);
      OneOrdinary(a + s);
      hide PlainLen;
      assert (a + s)[1..] == a[1..] + s;
    }
  }

  lemma OneOrdinary(s: string)
    requires s != "" && !IsLibpqSpace(s[0]) && s[0] != '\\'
    ensures PlainLen(s) == Plus(1, PlainLen(s[1..]))
  {
  }

  lemma ThreeStars(s: string)
    ensures ValueLen("***" + s) == Plus(3, PlainLen(s))
  {
    hide PlainLen;
    var stars := "***";
    OrdinaryThen(stars, s);
  }

  /** A hidden secret with a key right behind it swallows that key, and the text changes once more. */
  lemma RunsOn(it: Item, rest: string, hidden: string)
    requires Reads(it, rest) && IsSecretKey(it.key)
    requires hidden != "" && !IsLibpqSpace(hidden[0])
    ensures var r := Spelling(HideOne(it)) + hidden; Redact(r) != Some(r)
  {
    hide SpaceLen, First, Text.Trim, IsLibpqKeyword, IsLibpqSpace, IsSecretKey, ValueLen, PlainLen, Spelling, Redact;
    var h := it.(value := "***");
    var s := Spelling(h) + hidden;
    StarsRunOn(hidden);
    if PlainLen(hidden).None? {
      HiddenReads(it, "", "");
      NoValue(h, hidden);
      Unreadable(s);
    } else {
      var m := PlainLen(hidden).value;
      var longer := h.(value := "***" + hidden[..m]);
      assert Reads(longer, hidden[m..]);
      FirstReads(longer, hidden[m..]);
      Longer(h, hidden, m);
      RedactStep(longer, hidden[m..]);
      assert HideOne(longer) == h;
      if Redact(hidden[m..]).Some? {
        RedactKeepsStart(hidden[m..]);
        Cancel(Spelling(h), Redact(hidden[m..]).value, hidden);
        assert m < |hidden| ==> hidden[m..][0] == hidden[m];
      }
    }
  }

  lemma Unreadable(s: string)
    requires First(s) == Bad
    ensures Redact(s) == None
  {
  }

  lemma Longer(h: Item, hidden: string, m: nat)
    requires m <= |hidden|
    ensures Spelling(h.(value := h.value + hidden[..m])) + hidden[m..] == Spelling(h) + hidden
  {
    assert hidden == hidden[..m] + hidden[m..];
    var front := h.gap + h.key + "=" + h.pad;
    assert Spelling(h) == front + h.value;
  }

  /** Redacting again changes nothing exactly when every secret is followed by a space or the end: a quoted password
      with the next key right behind it becomes a plain value that runs on into that key. */
  lemma {:induction false} RedactTwice(items: seq<Item>, tail: string)
    requires WellFormed(items, tail)
    ensures var r := Render(Hide(items), tail); Redact(r) == Some(r) <==> SecretsSeparated(items, tail)
  {
    hide Reads, First, Spelling, HideOne, IsSecretKey, Lex;
    if items == [] {
      OnlySpace(tail);
    } else {
      var it, rest := items[0], Render(items[1..], tail);
      var hidden := Render(Hide(items[1..]), tail);
      HideKeepsStart(items[1..], tail);
      if IsSecretKey(it.key) && rest != "" && !IsLibpqSpace(rest[0]) {
        RunsOn(it, rest, hidden);
      } else {
        HiddenReads(it, rest, hidden);
        FirstReads(HideOne(it), hidden);
        RedactTwice(items[1..], tail);
        RedactStep(HideOne(it), hidden);
        HiddenStays(it);
        if Redact(hidden).Some? { Cancel(Spelling(HideOne(it)), Redact(hidden).value, hidden); }
      }
    }
  }

  lemma Cancel(a: string, b: string, c: string)
    ensures a + b == a + c <==> b == c
  {
    assert (a + b)[|a|..] == b && (a + c)[|a|..] == c;
  }

  lemma HiddenStays(it: Item)
    ensures HideOne(HideOne(it)) == HideOne(it)
  {
    hide IsSecretKey;
  }

  /** Redaction goes setting by setting. */
  lemma RedactStep(it: Item, rest: string)
    requires First(Spelling(it) + rest) == Got(it, rest)
    ensures Redact(Spelling(it) + rest) ==
            match Redact(rest) case None => None case Some(r) => Some(Spelling(HideOne(it)) + r)
  {
    hide First, Spelling, HideOne;
    var s := Spelling(it) + rest;
    assert Lex(s) == Prepend([it], Lex(rest));
    if Lex(rest).Lexed? {
      var more := Lex(rest).items;
      assert ([it] + more)[1..] == more;
    }
  }

  /** The same said of a text: redaction of a readable text succeeds, and once more makes no difference exactly when its
      secrets are followed by space or by the end. */
  lemma RedactIsIdempotent(s: string)
    requires Lex(s).Lexed?
    ensures Redact(s).Some?
    ensures Redact(Redact(s).value) == Redact(s) <==> SecretsSeparated(Lex(s).items, Lex(s).tail)
  {
    hide Render, Hide, WellFormed, SecretsSeparated, First;
    LexBefore(s);
    RedactTwice(Lex(s).items, Lex(s).tail);
  }

  lemma {:induction false} HideTwice(items: seq<Item>)
    ensures Hide(Hide(items)) == Hide(items) && |Hide(items)| == |items|
    ensures forall i :: 0 <= i < |items| ==> Hide(items)[i] == HideOne(items[i])
  {
    hide HideOne;
    if items != [] {
      HideTwice(items[1..]);
      HiddenStays(items[0]);
      assert ([HideOne(items[0])] + Hide(items[1..]))[1..] == Hide(items[1..]);
    }
  }

  /** With its secrets separated, a hidden text is as well formed as the text. */
  lemma {:induction false} HiddenWellFormed(items: seq<Item>, tail: string)
    requires WellFormed(items, tail) && SecretsSeparated(items, tail)
    ensures WellFormed(Hide(items), tail)
  {
    hide Reads, Spelling, HideOne, IsSecretKey;
    if items != [] {
      var it, rest := items[0], Render(items[1..], tail);
      var hidden := Render(Hide(items[1..]), tail);
      HideKeepsStart(items[1..], tail);
      HiddenReads(it, rest, hidden);
      HiddenWellFormed(items[1..], tail);
      assert Hide(items)[0] == HideOne(it) && Hide(items)[1..] == Hide(items[1..]);
    }
  }

  /** Reading the output again gives the same settings, key by key and value by value but for the stars, exactly when
      every secret is followed by a space or by the end. */
  lemma RedactedReadsBack(s: string)
    requires Lex(s).Lexed?
    ensures Redact(s).Some?
    ensures Lex(Redact(s).value) == Lexed(Hide(Lex(s).items), Lex(s).tail)
            <==> SecretsSeparated(Lex(s).items, Lex(s).tail)
  {
    var items, tail := Lex(s).items, Lex(s).tail;
    hide Lex, Render, WellFormed, SecretsSeparated, First, Hide;
    LexBefore(s);
    if SecretsSeparated(items, tail) {
      HiddenWellFormed(items, tail);
      LexAfter(Hide(items), tail);
    }
    HideTwice(items);
    RedactIsIdempotent(s);
  }

  lemma OrdinaryPlain(s: string)
    requires forall i :: 0 <= i < |s| ==> !IsLibpqSpace(s[i]) && s[i] != '\\'
    ensures PlainLen(s) == Some(|s|)
  {
  }

  lemma LowerCaseKey(s: string)
    requires s != "" && forall i :: 0 <= i < |s| ==> 'a' <= s[i] <= 'z'
    ensures Text.Trim(s) == s && IsLibpqKeyword(s) && Text.Lower(s) == s && '=' !in s
  {
    assert Text.TrimLeft(s) == s && Text.TrimRight(s) == s;
  }

  lemma TwoKeys()
    ensures IsSecretKey("password") && !IsSecretKey("user")
  {
    hide Text.Trim, Text.Lower;
    LowerCaseKey("password");
    LowerCaseKey("user");
    assert |"user"| == 4 && |"password"| == 8 && |"sslpassword"| == 11;
  }

  /** One setting without any space, read and redacted. */
  lemma OneSetting(key: string, value: string, rest: string)
    requires key != "" && forall i :: 0 <= i < |key| ==> 'a' <= key[i] <= 'z'
    requires ValueLen(value) == Some(|value|) && !StartsWithSpace(value) && Delimited(value, rest)
    requires Redact(rest).Some?
    ensures Redact(key + "=" + value + rest) ==
            Some(key + "=" + (if IsSecretKey(key) then "***" else value) + Redact(rest).value)
  {
    hide Redact, First, IsSecretKey, Text.Trim, IsLibpqKeyword, ValueLen, Delimited, Text.Lower;
    LowerCaseKey(key);
    var it := Item("", key, "", value);
    FirstReads(it, rest);
    RedactStep(it, rest);
    BareSpelling(key, value);
    BareSpelling(key, "***");
  }

  lemma BareSpelling(key: string, value: string)
    ensures Spelling(Item("", key, "", value)) == key + "=" + value
  {
    assert "" + key == key && key + "=" + "" == key + "=";
  }

  lemma RedactedOnce()
    ensures Redact("password=" + "'a'" + "user=b") == Some("password=" + "***" + "user=b")
  {
    hide Redact, IsSecretKey, PlainLen, QuotedLen;
    TwoKeys();
    NothingToRedact();
    OrdinaryPlain("b");
    OneSetting("user", "b", "");
    assert "user" + "=" + "b" + "" == "user=b";
    QuotedLetter();
    OneSetting("password", "'a'", "user=b");
    assert "password" + "=" == "password=";
  }

  lemma QuotedLetter()
    ensures ValueLen("'a'") == Some(3)
  {
    assert "'a'"[1..] == "a'" && "a'"[1..] == "'";
  }

  lemma RedactedTwice()
    ensures Redact("password=" + "***user=b") == Some("password=" + "***")
  {
    hide Redact, IsSecretKey, PlainLen;
    TwoKeys();
    NothingToRedact();
    OrdinaryPlain("***user=b");
    OneSetting("password", "***user=b", "");
    assert "password" + "=" == "password=";
    assert "password=" + "***user=b" + "" == "password=" + "***user=b";
    assert "password=" + "***" + "" == "password=" + "***";
  }

  /** The input that shows it: the user goes with the password the second time. */
  lemma SwallowedKey()
    ensures Redact("password='a'user=b") == Some("password=***user=b")
    ensures Redact("password=***user=b") == Some("password=***")
  {
    hide Redact;
    RedactedOnce();
    RedactedTwice();
    assert "password=" + "'a'" + "user=b" == "password='a'user=b";
    assert "password=" + "***" + "user=b" == "password=***user=b";
    assert "password=" + "***user=b" == "password=***user=b";
    assert "password=" + "***" == "password=***";
  }

  lemma NothingToRedact()
    ensures Redact("") == Some("")
  {
    OnlySpace("");
  }
}
