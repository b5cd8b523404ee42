/** Reading the last lines of a log from the end, block by block, against splitting the whole file. The file
    does not change while it is read. */
module LogTail {
  /** A byte that is white space; white space of several bytes does not occur in the files of this model. */
  predicate IsSpace(c: char) {
    c in {' ', '\t', '\n', '\r', '\U{000B}', '\U{000C}'}
  }

  predicate Blank(s: string) {
    forall i :: 0 <= i < |s| ==> IsSpace(s[i])
  }

  const BLOCK := 32 * 1024
  const DEFAULT_MAX_BYTES := 1024 * 1024

  // ---------- the simple reader ----------

  /** strings.Split at newlines: one piece more than there are newlines. */
  function Split(s: string): (p: seq<string>)
    ensures |p| == CountNewlines(s) + 1
  {
    if s == "" then [""]
    else if s[0] == '\n' then [""] + Split(s[1..])
    else
      var rest := Split(s[1..]);
      [[s[0]] + rest[0]] + rest[1..]
  }

  function CountNewlines(s: string): nat {
    if s == "" then 0 else (if s[0] == '\n' then 1 else 0) + CountNewlines(s[1..])
  }

  /** How many pieces are left when the blank ones at the end are dropped. */
  function Kept(p: seq<string>): (k: nat)
    ensures k <= |p|
    ensures k > 0 ==> !Blank(p[k - 1])
    ensures forall i :: k <= i < |p| ==> Blank(p[i])
  {
    if p == [] || !Blank(p[|p| - 1]) then |p| else Kept(p[..|p| - 1])
  }

  function TrimBlankLines(p: seq<string>): seq<string> {
    p[..Kept(p)]
  }

  function LastN(p: seq<string>, n: nat): seq<string> {
    if |p| <= n then p else p[|p| - n..]
  }

  /** What a caller wants: the last `n` lines of the whole file, trailing blank lines not counted. */
  function LastLines(file: string, n: nat): seq<string> {
    LastN(TrimBlankLines(Split(file)), n)
  }

  // ---------- the backward reader ----------

  function Min(a: nat, b: nat): nat {
    if a < b then a else b
  }

  /** Where the backward loop stops: at the start of the file, after enough bytes, or after enough newlines. */
  function StopOffset(file: string, offset: nat, maxLines: nat, maxBytes: nat): (stop: nat)
    requires offset <= |file|
    ensures stop <= offset
    decreases offset
  {
    if offset > 0 && |file| - offset < maxBytes && CountNewlines(file[offset..]) <= maxLines then
      StopOffset(file, offset - Min(BLOCK, offset), maxLines, maxBytes)
    else offset
  }

  function Start(file: string, maxLines: nat, maxBytes: int): nat {
    StopOffset(file, |file|, maxLines, if maxBytes <= 0 then DEFAULT_MAX_BYTES else maxBytes)
  }

  lemma {:induction false} CountConcat(a: string, b: string)
    ensures CountNewlines(a + b) == CountNewlines(a) + CountNewlines(b)
  {
    if a == "" {
      assert a + b == b;
    } else {
      CountConcat(a[1..], b);
      assert (a + b)[1..] == a[1..] + b;
    }
  }

  function Join(chunks: seq<string>): string {
    if chunks == [] then "" else Join(chunks[1..]) + chunks[0]
  }

  lemma {:induction false} JoinAppend(chunks: seq<string>, c: string)
    ensures Join(chunks + [c]) == c + Join(chunks)
  {
    if chunks == [] {
      assert [c][1..] == [];
    } else {
      JoinAppend(chunks[1..], c);
      assert (chunks + [c])[1..] == chunks[1..] + [c];
    }
  }

  method CountByte(b: string) returns (n: nat)
    ensures n == CountNewlines(b)
  {
    n := 0;
    for i := 0 to |b|
      invariant n == CountNewlines(b[..i])
    {
      assert b[..i + 1] == b[..i] + [b[i]];
      CountConcat(b[..i], [b[i]]);
      if b[i] == '\n' { n := n + 1; }
    }
    assert b[..|b|] == b;
  }

  /** The blocks read, last block first. */
  method ReadBlocks(file: string, maxLines: nat, limit: nat) returns (chunks: seq<string>)
    ensures Join(chunks) == file[StopOffset(file, |file|, maxLines, limit)..]
  {
    hide CountNewlines;
    var offset: nat, readBytes: nat, newlines: nat := |file|, 0, 0;
    chunks := [];
    assert file[|file|..] == "";
    EmptyCount();
    while offset > 0 && readBytes < limit && newlines <= maxLines
      invariant 0 <= offset <= |file| && readBytes == |file| - offset
      invariant newlines == CountNewlines(file[offset..]) && Join(chunks) == file[offset..]
      invariant StopOffset(file, offset, maxLines, limit) == StopOffset(file, |file|, maxLines, limit)
      decreases offset
    {
      var step := Min(BLOCK, offset);
      var b := file[offset - step..offset];
      assert file[offset - step..] == b + file[offset..];
      CountConcat(b, file[offset..]);
      JoinAppend(chunks, b);
      chunks := chunks + [b];
      readBytes := readBytes + |b|;
      var count := CountByte(b);
      newlines := newlines + count;
      offset := offset - step;
    }
  }

  lemma EmptyCount()
    ensures CountNewlines("") == 0
  {
  }

  /** The blocks written out in file order. */
  method WriteBack(chunks: seq<string>) returns (buf: string)
    ensures buf == Join(chunks)
  {
    buf := "";
    var i := |chunks|;
    assert chunks[..|chunks|] == chunks && "" + Join(chunks) == Join(chunks);
    while i > 0
      invariant 0 <= i <= |chunks| && buf + Join(chunks[..i]) == Join(chunks)
    {
      i := i - 1;
      JoinAppend(chunks[..i], chunks[i]);
      assert chunks[..i + 1] == chunks[..i] + [chunks[i]];
      buf := buf + chunks[i];
    }
  }

  method ReadLastLines(file: string, maxLines: int, maxBytes: int) returns (lines: seq<string>)
    ensures maxLines <= 0 ==> lines == []
    ensures maxLines > 0 ==>
      lines == LastN(TrimBlankLines(Split(file[Start(file, maxLines, maxBytes)..])), maxLines)
  {
    hide StopOffset, Split, Blank;
    if maxLines <= 0 { return []; }
    var limit: nat := if maxBytes <= 0 then DEFAULT_MAX_BYTES else maxBytes;
    if |file| == 0 {
      EmptyFile(file);
      return [];
    }
    var chunks := ReadBlocks(file, maxLines, limit);
    var buf := WriteBack(chunks);
    lines := Split(buf);
    ghost var all := lines;
    while |lines| > 0 && Blank(lines[|lines| - 1])
      invariant |lines| <= |all| && lines == all[..|lines|] && Kept(lines) == Kept(all)
    {
      lines := lines[..|lines| - 1];
    }
    if |lines| > maxLines { lines := lines[|lines| - maxLines..]; }
  }

  lemma EmptyFile(file: string)
    requires file == ""
    ensures TrimBlankLines(Split(file[0..])) == []
  {
    assert Split(file[0..]) == [""] && Blank("");
  }

  // ---------- when the two agree ----------

  /** Two texts' pieces put together: the last piece of one runs into the first of the other. */
  function Merge(p: seq<string>, q: seq<string>): seq<string>
    requires p != [] && q != []
  {
    p[..|p| - 1] + [p[|p| - 1] + q[0]] + q[1..]
  }

  lemma {:induction false} SplitConcat(a: string, b: string)
    ensures Split(a + b) == Merge(Split(a), Split(b))
  {
    var q := Split(b);
    if a == "" {
      assert a + b == b;
      assert "" + q[0] == q[0];
      assert q == [q[0]] + q[1..];
    } else {
      SplitConcat(a[1..], b);
      assert (a + b)[1..] == a[1..] + b && (a + b)[0] == a[0];
      MergeStep(a[0], Split(a[1..]), q);
    }
  }

  /** One more character in front goes through a merge. */
  lemma MergeStep(c: char, p: seq<string>, q: seq<string>)
    requires p != [] && q != []
    ensures [""] + Merge(p, q) == Merge([""] + p, q)
    ensures [[c] + Merge(p, q)[0]] + Merge(p, q)[1..] == Merge([[c] + p[0]] + p[1..], q)
  {
    var x := [[c] + p[0]] + p[1..];
    assert ([""] + p)[..|p|] == [""] + p[..|p| - 1];
    if |p| == 1 {
      assert [c] + (p[0] + q[0]) == ([c] + p[0]) + q[0];
      assert Merge(p, q) == [p[0] + q[0]] + q[1..];
      assert Merge(x, q) == [x[0] + q[0]] + q[1..];
    } else {
      assert x[..|p| - 1] == [[c] + p[0]] + p[1..|p| - 1];
      assert Merge(p, q)[1..] == p[1..|p| - 1] + [p[|p| - 1] + q[0]] + q[1..];
    }
  }

  /** The last piece is empty exactly when the text is empty or ends in a newline. */
  lemma {:induction false} LastPieceEmpty(a: string)
    ensures Split(a)[|Split(a)| - 1] == "" <==> a == "" || a[|a| - 1] == '\n'
  {
    if a != "" { LastPieceEmpty(a[1..]); }
  }

  lemma BlankSuffix(a: string, b: string)
    ensures Blank(a + b) ==> Blank(b)
  {
    assert forall i :: 0 <= i < |b| ==> (a + b)[|a| + i] == b[i];
  }

  /** Trimming the whole file's lines keeps everything before the tail, and of the tail what trimming the tail keeps,
      as long as the tail keeps something. */
  lemma TrimConcat(front: seq<string>, x: string, q: seq<string>)
    requires q != [] && TrimBlankLines(q) != []
    ensures TrimBlankLines(front + [x + q[0]] + q[1..]) ==
            front + [x + q[0]] + TrimBlankLines(q)[1..]
  {
    var all := front + [x + q[0]] + q[1..];
    var t := TrimBlankLines(q);
    var r := TrimBlankLines(all);
    BlankSuffix(x, q[0]);
    var k := |front| + |t| - 1;
    assert all[k] == if |t| == 1 then x + q[0] else q[|t| - 1];
    assert !Blank(all[k]);
    forall i | k < i < |all| ensures Blank(all[i]) { assert all[i] == q[i - |front|]; }
    assert |r| == k + 1;
    assert t[1..] == q[1..][..|t| - 1];
  }

  /** Comparing the ends of two lists that differ in front: `t` against the same list with `front` before it and
      its first element extended by `x`. */
  lemma EndsAgree(front: seq<string>, x: string, t: seq<string>, n: nat)
    requires t != [] && n > 0
    ensures LastN(t, n) == LastN(front + [x + t[0]] + t[1..], n)
            <==> (front == [] && x == "") || |t| > n || (|t| == n && x == "")
  {
    var whole := front + [x + t[0]] + t[1..];
    assert t == [t[0]] + t[1..];
    if |t| > n {
      assert LastN(whole, n) == t[|t| - n..];
    } else if |t| == n || front == [] {
      assert LastN(whole, n) == [x + t[0]] + t[1..];
      assert x + t[0] == t[0] <==> x == "" by { assert |x + t[0]| == |x| + |t[0]|; }
      if x != "" { assert LastN(whole, n)[0] != t[0]; }
    } else {
      assert |LastN(whole, n)| > |t|;
    }
  }

  /** The backward reader gives the last lines of the whole file exactly when it read all of the file, or kept
      more lines than asked for, or kept just as many and stopped at the start of a line, or read only blanks
      of a file that is nothing but blanks. */
  lemma TailIsExact(file: string, start: nat, n: nat)
    requires start <= |file| && n > 0
    ensures var kept := TrimBlankLines(Split(file[start..]));
            LastN(kept, n) == LastLines(file, n)
            <==> start == 0 || |kept| > n || (|kept| == n && file[start - 1] == '\n')
                 || (kept == [] && Blank(file))
  {
    hide Split, Kept, Blank;
    var pre, suf := file[..start], file[start..];
    var p, q := Split(pre), Split(suf);
    var t := TrimBlankLines(q);
    assert file == pre + suf;
    SplitConcat(pre, suf);
    LastPieceEmpty(pre);
    NothingKept(file);
    if t != [] {
      var x := p[|p| - 1];
      var front := p[..|p| - 1];
      TrimConcat(front, x, q);
      EndsAgree(front, x, t, n);
      if |p| == 1 { OnePiece(pre); }
    } else if start == 0 {
      assert suf == file;
    }
  }

  lemma {:induction false} OnePiece(a: string)
    requires |Split(a)| == 1
    ensures Split(a) == [a]
  {
    if a != "" {
      OnePiece(a[1..]);
      assert [a[0]] + a[1..] == a;
    }
  }

  /** The loop did not stop for want of bytes. */
  predicate NotCut(file: string, maxLines: nat, maxBytes: int) {
    var start := Start(file, maxLines, maxBytes);
    start == 0 || CountNewlines(file[start..]) > maxLines
  }

  /** So it is exact whenever the byte limit did not cut it short and the file ends in at most one blank piece. */
  lemma UsualTailIsExact(file: string, maxLines: nat, maxBytes: int)
    requires maxLines > 0 && NotCut(file, maxLines, maxBytes)
    requires |Split(file)| - |TrimBlankLines(Split(file))| <= 1
    ensures LastN(TrimBlankLines(Split(file[Start(file, maxLines, maxBytes)..])), maxLines) == LastLines(file, maxLines)
  {
    var start := Start(file, maxLines, maxBytes);
    if start > 0 { LastPiecesAgree(file, start); }
    TailIsExact(file, start, maxLines);
  }

  /** All pieces of a tail but its first are pieces of the whole. */
  lemma LastPiecesAgree(file: string, start: nat)
    requires start <= |file| && |Split(file[start..])| >= 3
    requires |Split(file)| - |TrimBlankLines(Split(file))| <= 1
    ensures |TrimBlankLines(Split(file[start..]))| >= |Split(file[start..])| - 1
  {
    hide Split, Blank;
    var pre, suf := file[..start], file[start..];
    assert file == pre + suf;
    SplitConcat(pre, suf);
    var q, f := Split(suf), Split(file);
    assert f[|f| - 2] == q[|q| - 2];
  }

  predicate AllBlank(p: seq<string>) {
    forall i :: 0 <= i < |p| ==> Blank(p[i])
  }

  lemma AllBlankCons(x: string, rest: seq<string>)
    ensures AllBlank([x] + rest) <==> Blank(x) && AllBlank(rest)
  {
    hide Blank;
    assert ([x] + rest)[0] == x;
    assert forall i :: 0 <= i < |rest| ==> ([x] + rest)[i + 1] == rest[i];
  }

  lemma {:induction false} PiecesBlank(s: string)
    ensures AllBlank(Split(s)) <==> Blank(s)
  {
    if s == "" {
      AllBlankCons("", []);
    } else {
      var rest := Split(s[1..]);
      PiecesBlank(s[1..]);
      BlankCons(s[0], s[1..]);
      assert s == [s[0]] + s[1..] && rest == [rest[0]] + rest[1..];
      hide Blank, AllBlank;
      AllBlankCons("", rest);
      AllBlankCons(rest[0], rest[1..]);
      AllBlankCons([s[0]] + rest[0], rest[1..]);
      BlankCons(s[0], rest[0]);
      NewlineIsBlank();
    }
  }

  lemma NewlineIsBlank()
    ensures IsSpace('\n') && Blank("")
  {
  }

  lemma BlankCons(c: char, s: string)
    ensures Blank([c] + s) <==> IsSpace(c) && Blank(s)
  {
    assert forall i :: 0 <= i < |s| ==> ([c] + s)[i + 1] == s[i];
    assert ([c] + s)[0] == c;
  }

  /** A file keeps no line exactly when it is blank. */
  lemma NothingKept(s: string)
    ensures TrimBlankLines(Split(s)) == [] <==> Blank(s)
  {
    hide Blank, Split;
    PiecesBlank(s);
  }

  function Newlines(n: nat): string {
    seq(n, _ => '\n')
  }

  lemma {:induction false} CountAll(n: nat)
    ensures CountNewlines(Newlines(n)) == n
  {
    if n > 0 {
      CountAll(n - 1);
      assert Newlines(n)[1..] == Newlines(n - 1);
    }
  }

  /** A whole block of newlines at the end hides the file: the reader sees nothing else and returns no line. */
  lemma BlankBlockHidesFile(front: string, maxLines: nat, maxBytes: int)
    requires !Blank(front) && 0 < maxLines < BLOCK
    ensures var file := front + Newlines(BLOCK);
            LastN(TrimBlankLines(Split(file[Start(file, maxLines, maxBytes)..])), maxLines) == []
            && LastLines(file, maxLines) != []
  {
    hide Split, Blank, CountNewlines, Newlines;
    var tail := Newlines(BLOCK);
    NewlinesAreBlank();
    var file := front + tail;
    assert file[|file|..] == "" && file[|front|..] == tail;
    EmptyCount();
    CountAll(BLOCK);
    var limit := if maxBytes <= 0 then DEFAULT_MAX_BYTES else maxBytes;
    assert StopOffset(file, |front|, maxLines, limit) == |front|;
    assert StopOffset(file, |file|, maxLines, limit) == StopOffset(file, |file| - Min(BLOCK, |file|), maxLines, limit);
    NothingKept(tail);
    NothingKept(file);
    BlankPrefix(front, tail);
  }

  lemma NewlinesAreBlank()
    ensures Blank(Newlines(BLOCK)) && |Newlines(BLOCK)| == BLOCK
  {
  }

  lemma BlankPrefix(a: string, b: string)
    ensures Blank(a + b) ==> Blank(a)
  {
    assert forall i :: 0 <= i < |a| ==> (a + b)[i] == a[i];
  }

  // ---------- what is read, in numbers ----------

  /** The offset so many blocks before another. */
  function Back(offset: nat, blocks: nat): int {
    offset - 32768 * blocks
  }

  /** What is behind the offset is not enough yet. */
  predicate GoesOn(file: string, at: int, maxLines: nat, limit: nat) {
    0 <= at <= |file| && |file| - at < limit && CountNewlines(file[at..]) <= maxLines
  }

  lemma StopStep(file: string, offset: nat, maxLines: nat, limit: nat)
    requires offset <= |file|
    ensures StopOffset(file, offset, maxLines, limit) ==
            if offset > 0 && GoesOn(file, offset, maxLines, limit)
            then StopOffset(file, if offset < 32768 then 0 else offset - 32768, maxLines, limit) else offset
  {
  }

  /** How far the backward loop goes: by blocks of 32768 bytes, a shorter one at the start of the file, until it is
      there or has the bytes or more newlines than lines wanted; and no further. */
  lemma {:induction false} StopExactly(file: string, offset: nat, maxLines: nat, limit: nat) returns (blocks: nat)
    requires offset <= |file|
    ensures var stop := StopOffset(file, offset, maxLines, limit);
            && stop == (if Back(offset, blocks) < 0 then 0 else Back(offset, blocks))
            && (stop > 0 ==> !GoesOn(file, stop, maxLines, limit))
            && (forall k: nat :: Back(offset, k) > stop ==> GoesOn(file, Back(offset, k), maxLines, limit))
    decreases offset
  {
    hide GoesOn, StopOffset;
    StopStep(file, offset, maxLines, limit);
    blocks := 0;
    if offset > 0 && GoesOn(file, offset, maxLines, limit) {
      var next := if offset < 32768 then 0 else offset - 32768;
      var more := StopExactly(file, next, maxLines, limit);
      blocks := if next == 0 then 1 else more + 1;
      forall k: nat | Back(offset, k) > StopOffset(file, offset, maxLines, limit)
        ensures GoesOn(file, Back(offset, k), maxLines, limit)
      {
        if k > 0 { assert Back(offset, k) == Back(next, k - 1); }
      }
    }
  }

  /** The last pieces, all of them when there are not more than wanted. */
  lemma LastAreLast(p: seq<string>, n: nat)
    ensures |LastN(p, n)| <= n && exists front :: front + LastN(p, n) == p && (front == [] || |LastN(p, n)| == n)
  {
    assert p[..|p| - |LastN(p, n)|] + LastN(p, n) == p;
  }

  /** The limit is a mebibyte when none is given, and a file of one block is read as a whole. */
  lemma StartExactly(file: string, maxLines: nat, maxBytes: int)
    ensures Start(file, maxLines, maxBytes) ==
            StopOffset(file, |file|, maxLines, if maxBytes > 0 then maxBytes else 1048576)
    ensures |file| <= 32768 ==> Start(file, maxLines, maxBytes) == 0
  {
  }

  /** Pieces put together with newlines between them. */
  function Lines(p: seq<string>): string
    requires p != []
  {
    if |p| == 1 then p[0] else p[0] + "\n" + Lines(p[1..])
  }

  /** Splitting gives the pieces between newlines: none has one, and together they are the text. */
  lemma {:induction false} SplitExactly(s: string)
    ensures Lines(Split(s)) == s && forall i :: 0 <= i < |Split(s)| ==> '\n' !in Split(s)[i]
  {
    if s != "" {
      SplitExactly(s[1..]);
      var p, rest := Split(s), Split(s[1..]);
      assert p[1..] == if s[0] == '\n' then rest else rest[1..];
    }
  }

  lemma SpaceIs(c: char)
    ensures IsSpace(c) <==> c == ' ' || '\t' <= c <= '\r'
  {
  }
}
