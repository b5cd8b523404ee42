/** Trimming, as strings.TrimSpace does it, lower case, and the order of strings. */
module Text {

  predicate IsSpace(c: char) {
    c in {' ', '\t', '\n', '\r', '\U{000B}', '\U{000C}', '\U{0085}', '\U{00A0}', '\U{1680}', '\U{2028}', '\U{2029}',
          '\U{202F}', '\U{205F}', '\U{3000}'}
    || '\U{2000}' <= c <= '\U{200A}'
  }

  function TrimLeft(s: string): (r: string)
    ensures r == "" || !IsSpace(r[0])
    ensures |r| <= |s| && r == s[|s| - |r|..]
    ensures forall i :: 0 <= i < |s| - |r| ==> IsSpace(s[i])
  {
    if s == "" || !IsSpace(s[0]) then s else TrimLeft(s[1..])
  }

  function TrimRight(s: string): (r: string)
    ensures r == "" || !IsSpace(r[|r| - 1])
    ensures |r| <= |s| && r == s[..|r|]
    ensures forall i :: |r| <= i < |s| ==> IsSpace(s[i])
  {
    if s == "" || !IsSpace(s[|s| - 1]) then s else TrimRight(s[..|s| - 1])
  }

  function Trim(s: string): string {
    TrimRight(TrimLeft(s))
  }

  /** Nothing but space; `TrimSpace(s) == ""` in the program. */
  predicate Blank(s: string) {
    forall i :: 0 <= i < |s| ==> IsSpace(s[i])
  }

  lemma TrimAgain(s: string)
    ensures Trim(Trim(s)) == Trim(s)
  {
    var l := TrimLeft(s);
    var t := TrimRight(l);
    assert t != "" ==> t[0] == l[0];
    assert TrimLeft(t) == t;
    assert TrimRight(t) == t;
  }

  lemma BlankTrimsToNothing(s: string)
    ensures Blank(s) <==> Trim(s) == ""
  {
    var l := TrimLeft(s);
    if l != "" { assert s[|s| - |l|] == l[0]; }
  }

  /** unicode.ToLower for ASCII, and for the two other letters that it turns into ASCII ones. */
  function LowerChar(c: char): char {
    if 'A' <= c <= 'Z' then c - 'A' + 'a' else if c == '\U{0130}' then 'i' else if c == '\U{212A}' then 'k' else c
  }

  function Lower(s: string): string {
    seq(|s|, i requires 0 <= i < |s| => LowerChar(s[i]))
  }

  /** The order of strings, which Go takes byte by byte and UTF-8 makes that of the characters. */
  predicate StringLess(a: string, b: string) {
    b != "" && (a == "" || a[0] < b[0] || (a[0] == b[0] && StringLess(a[1..], b[1..])))
  }

  lemma {:induction false} StringOrder(a: string, b: string)
    ensures StringLess(a, b) || StringLess(b, a) || a == b
    ensures !(StringLess(a, b) && StringLess(b, a)) && (a == b ==> !StringLess(a, b))
  {
    if a != "" && b != "" {
      StringOrder(a[1..], b[1..]);
      if a[0] == b[0] && a[1..] == b[1..] { assert a == [a[0]] + a[1..] == b; }
    }
  }

  lemma {:induction false} StringTransitive(a: string, b: string, c: string)
    requires StringLess(a, b) && StringLess(b, c)
    ensures StringLess(a, c)
  {
    if a != "" && a[0] == b[0] == c[0] { StringTransitive(a[1..], b[1..], c[1..]); }
  }

  // ---------- sorting distinct strings ----------

  ghost predicate AscendingStrings(names: seq<string>) {
    forall i, j :: 0 <= i < j < |names| ==> StringLess(names[i], names[j])
  }

  function InsertName(names: seq<string>, d: string): seq<string> {
    if names != [] && StringLess(d, names[|names| - 1])
    then InsertName(names[..|names| - 1], d) + [names[|names| - 1]]
    else names + [d]
  }

  lemma {:induction false} InsertAscends(names: seq<string>, d: string)
    requires AscendingStrings(names) && d !in names
    ensures AscendingStrings(InsertName(names, d))
    ensures forall x :: x in InsertName(names, d) <==> x in names || x == d
  {
    if names != [] {
      var init, last := names[..|names| - 1], names[|names| - 1];
      assert names == init + [last];
      if StringLess(d, last) {
        InsertAscends(init, d);
        var put := InsertName(init, d);
        forall i | 0 <= i < |put| ensures StringLess(put[i], last) {
          assert put[i] in put;
        }
      } else {
        StringOrder(d, last);
        forall i | 0 <= i < |names| ensures StringLess(names[i], d) {
          if i < |names| - 1 { StringTransitive(names[i], last, d); }
        }
      }
    }
  }

  method SortNames(names: set<string>) returns (sorted: seq<string>)
    ensures AscendingStrings(sorted) && forall x :: x in sorted <==> x in names
  {
    sorted := [];
    var todo := names;
    while todo != {}
      invariant todo <= names && AscendingStrings(sorted)
      invariant forall x :: x in sorted <==> x in names && x !in todo
      decreases todo
    {
      var d :| d in todo;
      InsertAscends(sorted, d);
      sorted := InsertName(sorted, d);
      todo := todo - {d};
    }
  }
}
