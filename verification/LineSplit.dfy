/** Splitting the output of a child process into lines: `output_handler` of spawn.c and the
    final flush in `sigchld_handler`. */
module LineSplit {
  import opened StringBuf

  // ---------------------------------------------------------------- lines of a whole stream

  function Init<T>(s: seq<T>): seq<T>
    requires s != []
  {
    s[..|s|-1]
  }

  function Last<T>(s: seq<T>): T
    requires s != []
  {
    s[|s|-1]
  }

  /** The last piece goes on with `p`. */
  function Grow(ps: seq<Bytes>, p: Bytes): (r: seq<Bytes>)
    requires ps != []
    ensures r != []
  {
    Init(ps) + [Last(ps) + p]
  }

  /** The stream cut at its newlines; what follows the last newline is the last piece. */
  function Pieces(s: Bytes): (ps: seq<Bytes>)
    ensures ps != []
  {
    if s == [] then [[]]
    else if Last(s) == NEWLINE then Pieces(Init(s)) + [[]]
    else Grow(Pieces(Init(s)), [Last(s)])
  }

  predicate NewlineFree(s: Bytes) {
    forall i | 0 <= i < |s| :: s[i] != NEWLINE
  }

  function Joined(ps: seq<Bytes>): Bytes
    requires ps != []
  {
    if |ps| == 1 then ps[0] else Joined(Init(ps)) + [NEWLINE] + Last(ps)
  }

  lemma JoinEmpty(ps: seq<Bytes>)
    requires ps != []
    ensures Joined(ps + [[]]) == Joined(ps) + [NEWLINE]
  {
    assert Init(ps + [[]]) == ps;
  }

  lemma JoinGrow(ps: seq<Bytes>, p: Bytes)
    requires ps != []
    ensures Joined(Grow(ps, p)) == Joined(ps) + p
  {
    var q := Grow(ps, p);
    assert Init(q) == Init(ps);
    if |ps| > 1 {
      var front := Joined(Init(ps)) + [NEWLINE];
      assert front + (Last(ps) + p) == front + Last(ps) + p;
    }
  }

  lemma GrowParts(ps: seq<Bytes>, p: Bytes)
    requires ps != []
    ensures Init(Grow(ps, p)) == Init(ps) && Last(Grow(ps, p)) == Last(ps) + p
  {}

  lemma GrowGrow(ps: seq<Bytes>, p: Bytes, q: Bytes)
    requires ps != []
    ensures Grow(Grow(ps, p), q) == Grow(ps, p + q) && Grow(ps, []) == ps
  {
    assert Init(Grow(ps, p)) == Init(ps);
    assert Last(ps) + p + q == Last(ps) + (p + q) && Last(ps) + [] == Last(ps);
  }

  lemma PiecesNext(s: Bytes, x: byte)
    ensures Pieces(s + [x]) == if x == NEWLINE then Pieces(s) + [[]] else Grow(Pieces(s), [x])
  {
    assert Init(s + [x]) == s;
  }

  lemma Ends<T>(s: seq<T>)
    requires s != []
    ensures s == Init(s) + [Last(s)]
  {}

  /** The pieces hold no newlines, and put together with newlines they are the stream. */
  lemma {:induction false} PiecesJoin(s: Bytes)
    ensures Joined(Pieces(s)) == s
    ensures forall i | 0 <= i < |Pieces(s)| :: NewlineFree(Pieces(s)[i])
  {
    hide Joined, Grow;
    if s != [] {
      Ends(s);
      PiecesJoin(Init(s));
      PiecesNext(Init(s), Last(s));
      JoinEmpty(Pieces(Init(s)));
      JoinGrow(Pieces(Init(s)), [Last(s)]);
      GrowFree(Pieces(Init(s)), [Last(s)]);
      hide Pieces;
    } else {
      JoinOne([]);
    }
  }

  lemma JoinOne(p: Bytes)
    ensures Joined([p]) == p
  {}

  lemma GrowFree(ps: seq<Bytes>, p: Bytes)
    requires ps != [] && forall i | 0 <= i < |ps| :: NewlineFree(ps[i])
    ensures NewlineFree(p) ==> forall i | 0 <= i < |Grow(ps, p)| :: NewlineFree(Grow(ps, p)[i])
  {}

  /** No other list of pieces does that. */
  lemma {:induction false} PiecesUnique(ps: seq<Bytes>)
    requires ps != [] && forall i | 0 <= i < |ps| :: NewlineFree(ps[i])
    ensures Pieces(Joined(ps)) == ps
  {
    if |ps| == 1 {
      PiecesAppend([], ps[0]);
      assert [] + ps[0] == ps[0];
    } else {
      PiecesUnique(Init(ps));
      PiecesNext(Joined(Init(ps)), NEWLINE);
      PiecesAppend(Joined(Init(ps)) + [NEWLINE], Last(ps));
      GrowEmpty(Init(ps), Last(ps));
      Ends(ps);
      hide Pieces, Grow;
    }
  }

  lemma GrowEmpty(ps: seq<Bytes>, p: Bytes)
    ensures Grow(ps + [[]], p) == ps + [p]
  {
    assert Init(ps + [[]]) == ps && [] + p == p;
  }

  lemma {:induction false} PiecesAppend(s: Bytes, p: Bytes)
    requires NewlineFree(p)
    ensures Pieces(s + p) == Grow(Pieces(s), p)
  {
    hide Pieces, Grow;
    if p == [] {
      GrowGrow(Pieces(s), [], []);
      assert s + p == s;
    } else {
      Ends(p);
      assert (s + Init(p)) + [Last(p)] == s + p;
      PiecesAppend(s, Init(p));
      PiecesNext(s + Init(p), Last(p));
      GrowGrow(Pieces(s), Init(p), [Last(p)]);
    }
  }

  lemma PiecesLine(s: Bytes, p: Bytes)
    requires NewlineFree(p)
    ensures Pieces(s + p + [NEWLINE]) == Grow(Pieces(s), p) + [[]]
  {
    PiecesAppend(s, p);
    PiecesNext(s + p, NEWLINE);
  }

  // ---------------------------------------------------------------- NUL bytes

  /** The pieces as the strings that are emitted: each ends before its first NUL. */
  function Cut(ps: seq<Bytes>): (r: seq<Bytes>)
    ensures |r| == |ps|
  {
    seq(|ps|, i requires 0 <= i < |ps| => CString(ps[i]))
  }

  lemma CutPush(ps: seq<Bytes>, p: Bytes)
    ensures Cut(ps + [p]) == Cut(ps) + [CString(p)]
  {}

  lemma NulFreeConcat(a: Bytes, b: Bytes)
    ensures NulFree(a + b) <==> NulFree(a) && NulFree(b)
  {
    if NulFree(a + b) {
      forall i | 0 <= i < |a| ensures a[i] != NUL { assert (a + b)[i] == a[i]; }
      forall i | 0 <= i < |b| ensures b[i] != NUL { assert (a + b)[|a| + i] == b[i]; }
    }
  }

  ghost predicate AllNulFree(ps: seq<Bytes>) {
    forall i | 0 <= i < |ps| :: NulFree(ps[i])
  }

  lemma {:induction false} PiecesNulFree(s: Bytes)
    ensures NulFree(s) <==> AllNulFree(Pieces(s))
  {
    if s != [] {
      Ends(s);
      PiecesNulFree(Init(s));
      PiecesNext(Init(s), Last(s));
      NulFreeConcat(Init(s), [Last(s)]);
      hide Pieces;
      GrowNulFree(Pieces(Init(s)), [Last(s)]);
    }
  }

  lemma GrowNulFree(ps: seq<Bytes>, p: Bytes)
    requires ps != []
    ensures AllNulFree(Grow(ps, p)) <==> AllNulFree(ps) && NulFree(p)
    ensures AllNulFree(ps + [[]]) <==> AllNulFree(ps)
  {
    NulFreeConcat(Last(ps), p);
    hide NulFree;
    var q, r := Grow(ps, p), ps + [[]];
    assert q[|ps|-1] == Last(ps) + p && forall i | 0 <= i < |ps| - 1 :: q[i] == ps[i];
    assert forall i | 0 <= i < |ps| :: r[i] == ps[i];
    assert NulFree([]) && r[|ps|] == [] by { NulFreeNone(); }
    if AllNulFree(r) { assert forall i | 0 <= i < |ps| :: NulFree(r[i]); }
    if AllNulFree(q) {
      assert NulFree(q[|ps|-1]);
      assert forall i | 0 <= i < |ps| - 1 :: NulFree(q[i]);
    }
  }

  lemma NulFreeNone()
    ensures NulFree([])
  {}

  /** What is emitted are the pieces themselves if and only if the stream holds no NUL. */
  lemma CutIsPieces(s: Bytes)
    ensures Cut(Pieces(s)) == Pieces(s) <==> NulFree(s)
  {
    PiecesNulFree(s);
    var ps := Pieces(s);
    forall i | 0 <= i < |ps| ensures Cut(ps)[i] == ps[i] <==> NulFree(ps[i]) { CStringFacts(ps[i]); }
    if Cut(ps) == ps { assert forall i | 0 <= i < |ps| :: Cut(ps)[i] == ps[i]; }
  }

  /** What a chunk leaves in the buffer. */
  function Rest(chunk: Bytes): Bytes {
    Last(Pieces(chunk))
  }

  lemma RestIs(front: Bytes, rest: Bytes)
    requires NewlineFree(rest) && (front == [] || Last(front) == NEWLINE)
    ensures Rest(front + rest) == rest
    ensures front == [] ==> NewlineFree(front + rest)
    ensures front != [] ==> !NewlineFree(front + rest)
  {
    PiecesAppend(front, rest);
    if front != [] {
      Ends(front);
      PiecesNext(Init(front), NEWLINE);
      assert (front + rest)[|front|-1] == NEWLINE;
    } else {
      assert front + rest == rest;
    }
    GrowParts(Pieces(front), rest);
    assert Last(Pieces(front)) == [];
    assert [] + rest == rest;
  }

  // ---------------------------------------------------------------- the reader

  /** What the buffer holds after the stream `seen`, if no NUL was pushed: its last piece. */
  ghost predicate Holds(b: Buffer, seen: Bytes)
    reads b, b.nodes
  {
    && b.Valid() && (b.nodes == [] ==> Last(Pieces(seen)) == [])
    && (b.Sound() ==> b.Contents() == Last(Pieces(seen)) && NulFree(Last(Pieces(seen))))
  }

  /** `memchr(pos, '\n', ret - pos)` */
  method FindNewline(buf: array<byte>, pos: nat, ret: nat) returns (eol: nat)
    requires pos <= ret <= buf.Length
    ensures pos <= eol <= ret && (eol < ret ==> buf[eol] == NEWLINE) && NewlineFree(buf[pos..eol])
  {
    eol := pos;
    while eol < ret && buf[eol] != NEWLINE
      invariant pos <= eol <= ret && NewlineFree(buf[pos..eol])
    {
      eol := eol + 1;
    }
  }

  /** One line is complete: it is emitted, together with what the buffer holds. This fails exactly if a NUL was
      pushed into the buffer. */
  method EmitLine(buf: array<byte>, pos: nat, eol: nat, b: Buffer, ghost seen: Bytes) returns (ok: bool, line: Bytes)
    requires pos <= eol < buf.Length && buf[eol] == NUL && Holds(b, seen)
    modifies b, b.nodes
    ensures ok <==> old(b.Sound())
    ensures ok ==> line == CString(Last(Pieces(seen)) + buf[pos..eol]) && b.Valid() && b.nodes == []
  {
    hide Pieces;
    ok, line := true, [];
    ghost var tail, piece := Last(Pieces(seen)), buf[pos..eol];
    CStringStops(piece, buf[eol+1..]);
    assert buf[pos..] == piece + [NUL] + buf[eol+1..];
    CStringFacts(piece);
    if b.Sound() { CStringFront(tail, piece); }
    var empty := b.IsEmpty();
    if !empty {
      b.Push(CString(buf[pos..]));
      var out;
      ok, out := b.Dump();
      if !ok {
        return;
      }
      line := CString(out[..]);
    } else {
      line := CString(buf[pos..]);
      assert tail == [] && [] + CString(piece) == CString(piece);
    }
  }

  /** Between the streams `seen` and `known`, these lines were emitted. */
  ghost predicate Emitted(seen: Bytes, lines: seq<Bytes>, known: Bytes) {
    Cut(Init(Pieces(known))) == Cut(Init(Pieces(seen))) + lines
  }

  lemma EmittedTrans(a: Bytes, l: seq<Bytes>, b: Bytes, m: seq<Bytes>, c: Bytes)
    requires Emitted(a, l, b) && Emitted(b, m, c)
    ensures Emitted(a, l + m, c)
  {
    hide Pieces, Cut;
    assert Cut(Init(Pieces(a))) + l + m == Cut(Init(Pieces(a))) + (l + m);
  }

  lemma EmittedNone(a: Bytes)
    ensures Emitted(a, [], a)
  {}

  lemma EmittedLine(seen: Bytes, piece: Bytes)
    requires NewlineFree(piece)
    ensures Emitted(seen, [CString(Last(Pieces(seen)) + piece)], seen + piece + [NEWLINE])
    ensures Last(Pieces(seen + piece + [NEWLINE])) == []
  {
    PiecesLine(seen, piece);
    var ps := Pieces(seen);
    hide Pieces;
    assert Init(Grow(ps, piece) + [[]]) == Init(ps) + [Last(ps) + piece];
    CutPush(Init(ps), Last(ps) + piece);
  }

  lemma EmittedRest(seen: Bytes, rest: Bytes)
    requires NewlineFree(rest)
    ensures Emitted(seen, [], seen + rest) && Last(Pieces(seen + rest)) == Last(Pieces(seen)) + rest
  {
    PiecesAppend(seen, rest);
    GrowParts(Pieces(seen), rest);
    hide Pieces, Grow;
  }

  /** One round that finds a newline. */
  method NextLine(buf: array<byte>, pos: nat, eol: nat, b: Buffer, ghost seen: Bytes) returns (ok: bool, line: Bytes)
    requires pos <= eol < buf.Length && buf[eol] == NEWLINE && NewlineFree(buf[pos..eol]) && Holds(b, seen)
    modifies buf, b, b.nodes
    ensures ok <==> old(b.Sound())
    ensures ok ==> buf[eol + 1..] == old(buf[eol + 1..]) && b.nodes == []
    ensures ok ==> var known := seen + old(buf[pos..eol]) + [NEWLINE]; Holds(b, known) && Emitted(seen, [line], known)
  {
    hide Pieces, Cut;
    ghost var piece := buf[pos..eol];
    buf[eol] := NUL;
    assert buf[pos..eol] == piece;
    ok, line := EmitLine(buf, pos, eol, b, seen);
    EmittedLine(seen, piece);
    if ok { EmptyHolds(b, seen + piece + [NEWLINE]); }
  }

  lemma EmptyHolds(b: Buffer, seen: Bytes)
    requires b.Valid() && b.nodes == [] && Last(Pieces(seen)) == []
    ensures Holds(b, seen) && b.Sound()
  {}

  /** The last round, which keeps what is left for later. */
  method KeepRest(buf: array<byte>, pos: nat, ret: nat, b: Buffer, ghost seen: Bytes)
    requires pos <= ret <= buf.Length && NewlineFree(buf[pos..ret]) && Holds(b, seen)
    modifies b, b.nodes
    ensures Holds(b, seen + buf[pos..ret]) && b.nodes != [] && Emitted(seen, [], seen + buf[pos..ret])
    ensures b.Sound() <==> old(b.Sound()) && NulFree(buf[pos..ret])
    ensures (forall k | 0 <= k < |b.nodes| :: b.nodes[k] in old(b.nodes) || fresh(b.nodes[k]))
  {
    hide Pieces, Cut;
    ghost var rest := buf[pos..ret];
    EmittedRest(seen, rest);
    CStringFacts(rest);
    NulFreeConcat(Last(Pieces(seen)), rest);
    b.LPush(buf[pos..ret]);
  }

  /** The inner loop of `output_handler`, for one successful `read`. It fails exactly if it finds a newline while
      the buffer holds what was pushed with a NUL. */
  method SplitChunk(buf: array<byte>, ret: nat, b: Buffer, ghost seen: Bytes) returns (ok: bool, lines: seq<Bytes>)
    requires 0 < ret <= buf.Length && Holds(b, seen)
    modifies buf, b, b.nodes
    ensures ok <==> old(b.Sound()) || NewlineFree(old(buf[..ret]))
    ensures ok ==> Holds(b, seen + old(buf[..ret])) && b.nodes != [] && Emitted(seen, lines, seen + old(buf[..ret]))
    ensures ok ==> (b.Sound() <==> old(b.Sound()) && NulFree(Rest(old(buf[..ret]))))
    ensures ok ==> (forall k | 0 <= k < |b.nodes| :: b.nodes[k] in old(b.nodes) || fresh(b.nodes[k]))
  {
    hide Holds, Emitted, Pieces, Rest, NulFree;
    ghost var chunk, sound := buf[..ret], b.Sound();
    ghost var known := seen;
    ok, lines := true, [];
    var pos := 0;
    EmittedNone(seen);
    assert seen + chunk[..0] == seen;
    while true
      invariant 0 <= pos <= ret && buf[pos..ret] == chunk[pos..] && known == seen + chunk[..pos]
      invariant Holds(b, known) && Emitted(seen, lines, known)
      invariant b.Sound() == sound && (pos > 0 ==> sound && chunk[pos-1] == NEWLINE)
      invariant forall k | 0 <= k < |b.nodes| :: b.nodes[k] in old(b.nodes) || fresh(b.nodes[k])
      decreases ret - pos
    {
      var eol := FindNewline(buf, pos, ret);
      Slices(buf, chunk, pos, eol, ret);
      if eol < ret {
        var line;
        ok, line := NextLine(buf, pos, eol, b, known);
        if !ok {
          return;
        }
        ghost var known' := seen + chunk[..eol + 1];
        assert known + chunk[pos..eol] + [NEWLINE] == known';
        EmittedTrans(seen, lines, known, [line], known');
        SoundNow(b, known');
        lines, known := lines + [line], known';
        assert buf[eol + 1..ret] == buf[eol + 1..][..ret - eol - 1];
        pos := eol + 1;
      } else {
        assert known + buf[pos..ret] == seen + chunk && chunk == chunk[..pos] + chunk[pos..];
        RestIs(chunk[..pos], chunk[pos..]);
        KeepRest(buf, pos, ret, b, known);
        EmittedTrans(seen, lines, known, [], seen + chunk);
        assert lines + [] == lines;
        break;
      }
    }
  }

  lemma SoundNow(b: Buffer, seen: Bytes)
    requires Holds(b, seen) && b.nodes == []
    ensures b.Sound()
  {}

  lemma Slices(buf: array<byte>, chunk: Bytes, pos: nat, eol: nat, ret: nat)
    requires pos <= eol <= ret == |chunk| <= buf.Length && buf[pos..ret] == chunk[pos..]
    ensures buf[pos..eol] == chunk[pos..eol]
    ensures eol < ret ==> buf[eol] == chunk[eol] && buf[eol + 1..][..ret - eol - 1] == chunk[eol + 1..]
  {
    assert forall i | pos <= i < ret :: buf[i] == buf[pos..ret][i - pos] == chunk[i];
  }

  // ---------------------------------------------------------------- the whole output of a child

  const BUFFER_SIZE := 4096

  function Flat<T>(chunks: seq<seq<T>>): seq<T> {
    if chunks == [] then [] else Flat(Init(chunks)) + Last(chunks)
  }

  /** What `read` may return before it returns 0 or an error. */
  predicate Readable(chunks: seq<Bytes>) {
    forall i | 0 <= i < |chunks| :: 0 < |chunks[i]| <= BUFFER_SIZE
  }

  /** No chunk has a NUL behind its last newline. */
  predicate Clean(chunks: seq<Bytes>) {
    forall i | 0 <= i < |chunks| :: NulFree(Rest(chunks[i]))
  }

  lemma CleanNext(chunks: seq<Bytes>, i: nat)
    requires i < |chunks|
    ensures Clean(chunks[..i+1]) <==> Clean(chunks[..i]) && NulFree(Rest(chunks[i]))
    ensures Clean(chunks) ==> Clean(chunks[..i+1])
  {
    hide NulFree, Rest;
    assert forall j | 0 <= j < i :: chunks[..i+1][j] == chunks[..i][j];
    assert chunks[..i+1][i] == chunks[i];
  }

  /** The buffer after the stream `seen`; it has a node as soon as anything was read. */
  ghost predicate Reading(b: Buffer, seen: Bytes)
    reads b, b.nodes
  {
    Holds(b, seen) && (b.nodes == [] <==> seen == [])
  }

  /** `output_handler`, with what its reads return. */
  method OutputHandler(buf: array<byte>, b: Buffer, chunks: seq<Bytes>, ghost seen: Bytes) returns (ok: bool, lines: seq<Bytes>)
    requires Readable(chunks) && buf.Length == BUFFER_SIZE && Reading(b, seen)
    modifies buf, b, b.nodes
    ensures old(b.Sound()) && Clean(chunks) ==> ok
    ensures ok ==> Reading(b, seen + Flat(chunks)) && Emitted(seen, lines, seen + Flat(chunks))
    ensures ok ==> (b.Sound() <==> old(b.Sound()) && Clean(chunks))
    ensures ok ==> (forall k | 0 <= k < |b.nodes| :: b.nodes[k] in old(b.nodes) || fresh(b.nodes[k]))
  {
    hide Flat, Holds, Emitted, Reading, Rest, Clean, NulFree;
    ok, lines := true, [];
    assert chunks[..0] == [] && seen + [] == seen;
    FlatNone<byte>();
    EmittedNone(seen);
    assert Clean(chunks[..0]) by { CleanNone(); }
    ghost var known, sound := seen, b.Sound();
    for i := 0 to |chunks|
      invariant known == seen + Flat(chunks[..i]) && Reading(b, known) && Emitted(seen, lines, known)
      invariant b.Sound() <==> sound && Clean(chunks[..i])
      invariant forall k | 0 <= k < |b.nodes| :: b.nodes[k] in old(b.nodes) || fresh(b.nodes[k])
    {
      FlatNext(chunks, i);
      CleanNext(chunks, i);
      assert known + chunks[i] == seen + (Flat(chunks[..i]) + chunks[i]);
      var more;
      ok, more := HandleRead(buf, b, chunks[i], known);
      if !ok {
        return;
      }
      EmittedTrans(seen, lines, known, more, known + chunks[i]);
      lines, known := lines + more, known + chunks[i];
    }
    assert chunks[..|chunks|] == chunks;
  }

  lemma CleanNone()
    ensures Clean([])
  {}

  lemma FlatNone<T>()
    ensures Flat<T>([]) == []
  {}

  method HandleRead(buf: array<byte>, b: Buffer, chunk: Bytes, ghost seen: Bytes) returns (ok: bool, lines: seq<Bytes>)
    requires 0 < |chunk| <= buf.Length && Reading(b, seen)
    modifies buf, b, b.nodes
    ensures ok <==> old(b.Sound()) || NewlineFree(chunk)
    ensures ok ==> Reading(b, seen + chunk) && Emitted(seen, lines, seen + chunk)
    ensures ok ==> (b.Sound() <==> old(b.Sound()) && NulFree(Rest(chunk)))
    ensures ok ==> (forall k | 0 <= k < |b.nodes| :: b.nodes[k] in old(b.nodes) || fresh(b.nodes[k]))
  {
    hide Holds, Emitted, Rest, NulFree;
    CopyAt(buf, 0, chunk, |chunk|);
    assert buf[..|chunk|] == chunk;
    ok, lines := SplitChunk(buf, |chunk|, b, seen);
  }

  lemma FlatNext<T>(chunks: seq<seq<T>>, i: nat)
    requires i < |chunks|
    ensures Flat(chunks[..i+1]) == Flat(chunks[..i]) + chunks[i]
  {
    assert Init(chunks[..i+1]) == chunks[..i];
  }

  /** The flush when the child has exited. */
  method Flush(b: Buffer, ghost seen: Bytes) returns (ok: bool, lines: seq<Bytes>)
    requires Reading(b, seen)
    modifies b
    ensures ok <==> old(b.Sound())
    ensures ok ==> lines == if seen == [] then [] else [CString(Last(Pieces(seen)))]
  {
    hide Pieces;
    ok, lines := true, [];
    CStringFacts(Last(Pieces(seen)));
    var empty := b.IsEmpty();
    if !empty {
      var out;
      ok, out := b.Dump();
      if ok {
        lines := [CString(out[..])];
      }
    }
  }

  function Stream(callbacks: seq<seq<Bytes>>): Bytes {
    Flat(Flat(callbacks))
  }

  lemma StreamNone(callbacks: seq<seq<Bytes>>)
    ensures Stream(callbacks[..0]) == []
  {}

  lemma StreamNext(callbacks: seq<seq<Bytes>>, i: nat)
    requires i < |callbacks|
    ensures Stream(callbacks[..i+1]) == Stream(callbacks[..i]) + Flat(callbacks[i])
  {
    FlatNext(callbacks, i);
    FlatFlat(Flat(callbacks[..i]), callbacks[i]);
  }

  predicate AllClean(callbacks: seq<seq<Bytes>>) {
    forall i | 0 <= i < |callbacks| :: Clean(callbacks[i])
  }

  lemma AllCleanNext(callbacks: seq<seq<Bytes>>, i: nat)
    requires i < |callbacks|
    ensures AllClean(callbacks[..i+1]) <==> AllClean(callbacks[..i]) && Clean(callbacks[i])
    ensures AllClean(callbacks) ==> AllClean(callbacks[..i+1])
  {
    hide Clean;
    assert forall j | 0 <= j < i :: callbacks[..i+1][j] == callbacks[..i][j];
    assert callbacks[..i+1][i] == callbacks[i];
  }

  lemma AllCleanNone()
    ensures AllClean([])
  {}

  /** However the stream is cut into reads and callbacks, the lines emitted over the life of the child are the
      pieces of the whole stream, each up to its first NUL, and an empty stream emits nothing. The buffer is
      dumped within its bounds if and only if no chunk has a NUL behind its last newline. */
  method WholeOutput(callbacks: seq<seq<Bytes>>) returns (ok: bool, lines: seq<Bytes>)
    requires forall i | 0 <= i < |callbacks| :: Readable(callbacks[i])
    ensures ok <==> AllClean(callbacks)
    ensures ok ==> lines == if Stream(callbacks) == [] then [] else Cut(Pieces(Stream(callbacks)))
  {
    hide Pieces, Flat, Holds, Stream, Reading, Emitted, Clean, AllClean, Cut, Readable;
    var buf := new byte[BUFFER_SIZE];
    var b := new Buffer();
    ok, lines := true, [];
    ghost var seen := [];
    StreamNone(callbacks);
    Unread(b);
    assert callbacks[..0] == [];
    AllCleanNone();
    for i := 0 to |callbacks|
      invariant seen == Stream(callbacks[..i]) && fresh(b) && fresh(buf)
      invariant forall k | 0 <= k < |b.nodes| :: fresh(b.nodes[k])
      invariant Reading(b, seen) && Emitted([], lines, seen) && (b.Sound() <==> AllClean(callbacks[..i]))
    {
      StreamNext(callbacks, i);
      AllCleanNext(callbacks, i);
      var more;
      ok, more := OutputHandler(buf, b, callbacks[i], seen);
      if !ok {
        return;
      }
      EmittedTrans([], lines, seen, more, seen + Flat(callbacks[i]));
      lines, seen := lines + more, seen + Flat(callbacks[i]);
    }
    assert callbacks[..|callbacks|] == callbacks;
    var rest;
    ok, rest := Flush(b, seen);
    WholeLines(seen, lines);
    lines := lines + rest;
  }

  lemma WholeLines(s: Bytes, lines: seq<Bytes>)
    requires Emitted([], lines, s)
    ensures s == [] ==> lines == []
    ensures lines + [CString(Last(Pieces(s)))] == Cut(Pieces(s))
  {
    var ps := Pieces(s);
    assert Pieces([]) == [[]] && Init(Pieces([])) == [] && Cut([]) == [];
    assert lines == Cut(Init(ps));
    CutPush(Init(ps), Last(ps));
    Ends(ps);
  }

  lemma Unread(b: Buffer)
    requires b.Valid() && b.nodes == []
    ensures Reading(b, []) && b.Sound() && Emitted([], [], [])
  {}

  lemma FlatPush<T>(a: seq<seq<T>>, x: seq<T>)
    ensures Flat(a + [x]) == Flat(a) + x
  {
    assert Init(a + [x]) == a;
  }

  lemma {:induction false} FlatFlat<T>(a: seq<seq<T>>, b: seq<seq<T>>)
    ensures Flat(a + b) == Flat(a) + Flat(b)
  {
    if b == [] {
      assert a + b == a;
    } else {
      Ends(b);
      assert a + b == (a + Init(b)) + [Last(b)];
      FlatFlat(a, Init(b));
      FlatPush(a + Init(b), Last(b));
      assert Flat(b) == Flat(Init(b)) + Last(b);
      hide Flat;
    }
  }
}
