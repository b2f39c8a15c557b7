/** The string buffer of string_buf.c: a singly linked list of strings with a tail pointer. */
module StringBuf {

  newtype byte = x: int | 0 <= x < 256

  const NUL: byte := 0
  const NEWLINE: byte := 10

  type Bytes = seq<byte>

  predicate NulFree(s: Bytes) {
    forall i | 0 <= i < |s| :: s[i] != NUL
  }

  /** The string that a pointer to these bytes denotes: everything before the first NUL. */
  function CString(s: Bytes): Bytes {
    if s == [] || s[0] == NUL then [] else [s[0]] + CString(s[1..])
  }

  /** What follows a NUL does not belong to the string. */
  lemma {:induction false} CStringStops(s: Bytes, rest: Bytes)
    ensures CString(s + [NUL] + rest) == CString(s)
  {
    if s == [] {
      assert (s + [NUL] + rest)[0] == NUL;
    } else {
      assert (s + [NUL] + rest)[0] == s[0] && (s + [NUL] + rest)[1..] == s[1..] + [NUL] + rest;
      CStringStops(s[1..], rest);
    }
  }

  /** A string is everything exactly if there is no NUL in it. */
  lemma {:induction false} CStringFacts(s: Bytes)
    ensures NulFree(CString(s)) && |CString(s)| <= |s|
    ensures |CString(s)| == |s| <==> NulFree(s)
    ensures CString(s) == s <==> NulFree(s)
  {
    if s != [] && s[0] != NUL {
      CStringFacts(s[1..]);
      assert s == [s[0]] + s[1..];
    }
  }

  /** A front without NUL belongs to the string. */
  lemma {:induction false} CStringFront(a: Bytes, s: Bytes)
    requires NulFree(a)
    ensures CString(a + s) == a + CString(s)
  {
    if a == [] {
      assert a + s == s;
    } else {
      assert (a + s)[0] == a[0] && (a + s)[1..] == a[1..] + s;
      CStringFront(a[1..], s);
      assert a == [a[0]] + a[1..];
    }
  }

  /** `len` counts the bytes that were pushed, `str` ends before the first NUL among them. */
  class Node {
    const str: Bytes
    const len: nat
    var next: Node?

    constructor (str: Bytes, len: nat)
      ensures this.str == str && this.len == len && next == null
    {
      this.str, this.len, next := str, len, null;
    }
  }

  ghost function Concat(nodes: seq<Node>): Bytes {
    if nodes == [] then [] else Concat(nodes[..|nodes|-1]) + nodes[|nodes|-1].str
  }

  lemma {:induction false} ConcatNext(nodes: seq<Node>, i: nat)
    requires i < |nodes|
    ensures Concat(nodes[..i+1]) == Concat(nodes[..i]) + nodes[i].str
  {
    assert nodes[..i+1][..i] == nodes[..i];
  }

  ghost function SumLen(nodes: seq<Node>): nat {
    if nodes == [] then 0 else SumLen(nodes[..|nodes|-1]) + nodes[|nodes|-1].len
  }

  lemma {:induction false} SumLenNext(nodes: seq<Node>, i: nat)
    requires i < |nodes|
    ensures SumLen(nodes[..i+1]) == SumLen(nodes[..i]) + nodes[i].len
  {
    assert nodes[..i+1][..i] == nodes[..i];
  }

  ghost predicate AllSound(nodes: seq<Node>) {
    forall i | 0 <= i < |nodes| :: nodes[i].len == |nodes[i].str|
  }

  /** The recorded lengths sum up to the length of the strings exactly if each is right. */
  lemma {:induction false} SumLenExact(nodes: seq<Node>)
    requires forall i | 0 <= i < |nodes| :: |nodes[i].str| <= nodes[i].len
    ensures |Concat(nodes)| <= SumLen(nodes)
    ensures |Concat(nodes)| == SumLen(nodes) <==> AllSound(nodes)
  {
    if nodes != [] { SumLenExact(nodes[..|nodes|-1]); }
  }

  lemma {:induction false} SumLenGrows(nodes: seq<Node>, i: nat)
    requires i <= |nodes|
    ensures SumLen(nodes[..i]) <= SumLen(nodes)
    decreases |nodes| - i
  {
    if i < |nodes| {
      SumLenNext(nodes, i);
      SumLenGrows(nodes, i + 1);
    } else {
      assert nodes[..i] == nodes;
    }
  }

  lemma {:induction false} ConcatNulFree(nodes: seq<Node>)
    requires forall i | 0 <= i < |nodes| :: NulFree(nodes[i].str)
    ensures NulFree(Concat(nodes))
  {
    if nodes != [] { ConcatNulFree(nodes[..|nodes|-1]); }
  }

  class Buffer {
    var head: Node?
    var last: Node?          // the node whose `next` the tail points to; null for `head` itself
    ghost var nodes: seq<Node>

    ghost predicate Valid()
      reads this, nodes
    {
      && (head == if nodes == [] then null else nodes[0])
      && (last == if nodes == [] then null else nodes[|nodes|-1])
      && (forall i, j | 0 <= i < j < |nodes| :: nodes[i] != nodes[j])
      && (forall i {:trigger nodes[i].next} | 0 <= i < |nodes| :: nodes[i].next == if i + 1 < |nodes| then nodes[i+1] else null)
      && (forall i | 0 <= i < |nodes| :: |nodes[i].str| <= nodes[i].len && NulFree(nodes[i].str))
    }

    /** No NUL was pushed: every node holds as many bytes as its length says. */
    ghost predicate Sound()
      reads this
    {
      AllSound(nodes)
    }

    ghost function Contents(): Bytes
      reads this
    {
      Concat(nodes)
    }

    constructor ()
      ensures Valid() && nodes == []
    {
      head, last, nodes := null, null, [];
    }

    /** `string_buf_push`, for a pointer to the string `str` */
    method Push(str: Bytes)
      requires Valid() && NulFree(str)
      modifies this, nodes
      ensures Valid() && |nodes| == |old(nodes)| + 1 && nodes[..|old(nodes)|] == old(nodes) && fresh(nodes[|old(nodes)|])
      ensures Contents() == old(Contents()) + str && Sound() == old(Sound())
    {
      Append(str, |str|);
    }

    /** `string_buf_lpush`, for a pointer to any bytes: what is stored ends before the first NUL, but the
        length that is recorded does not. */
    method LPush(bytes: Bytes)
      requires Valid()
      modifies this, nodes
      ensures Valid() && |nodes| == |old(nodes)| + 1 && nodes[..|old(nodes)|] == old(nodes) && fresh(nodes[|old(nodes)|])
      ensures Contents() == old(Contents()) + CString(bytes) && Sound() == (old(Sound()) && NulFree(bytes))
    {
      CStringFacts(bytes);
      // strndup
      Append(CString(bytes), |bytes|);
    }

    method Append(str: Bytes, len: nat)
      requires Valid() && NulFree(str) && |str| <= len
      modifies this, nodes
      ensures Valid() && |nodes| == |old(nodes)| + 1 && nodes[..|old(nodes)|] == old(nodes) && fresh(nodes[|old(nodes)|])
      ensures Contents() == old(Contents()) + str && Sound() == (old(Sound()) && len == |str|)
    {
      hide Concat, AllSound, NulFree;
      var n := new Node(str, len);
      NodesPush(nodes, n);
      if last == null {
        head := n;
      } else {
        last.next := n;
      }
      last := n;
      nodes := nodes + [n];
    }

    method IsEmpty() returns (empty: bool)
      requires Valid()
      ensures empty <==> nodes == []
    {
      empty := head == null;
    }

    method Clear()
      requires Valid()
      modifies this
      ensures Valid() && nodes == []
    {
      var tmp := head;
      ghost var i := 0;
      while tmp != null
        invariant 0 <= i <= |nodes| && tmp == if i < |nodes| then nodes[i] else null
        decreases |nodes| - i
      {
        tmp := tmp.next;
        i := i + 1;
      }
      head, last, nodes := null, null, [];
    }

    method TotalLength() returns (len: nat)
      requires Valid()
      ensures len == |Contents()|
    {
      len := 0;
      var tmp := head;
      ghost var i := 0;
      while tmp != null
        invariant 0 <= i <= |nodes| && tmp == (if i < |nodes| then nodes[i] else null) && len == |Concat(nodes[..i])|
        decreases |nodes| - i
      {
        ConcatNext(nodes, i);
        len := len + |tmp.str|;
        tmp := tmp.next;
        i := i + 1;
      }
      assert nodes[..|nodes|] == nodes;
    }

    /** The copying loop. It fails exactly if it would leave the block that it writes to, or if there is no byte
        left in that for the final NUL. */
    method CopyInto(ret: array<byte>) returns (ok: bool, pos: nat)
      requires Valid() && ret.Length == |Contents()| + 1
      modifies ret
      ensures ok <==> Sound()
      ensures ok ==> pos == |Contents()| && ret[..pos] == Contents()
    {
      hide Concat, SumLen;
      pos := 0;
      var tmp := head;
      ghost var i := 0;
      ConcatNone(nodes);
      SumLenExact(nodes);
      while tmp != null
        invariant 0 <= i <= |nodes| && tmp == (if i < |nodes| then nodes[i] else null)
        invariant pos == SumLen(nodes[..i]) <= ret.Length
        invariant AllSound(nodes[..i]) ==> ret[..pos] == Concat(nodes[..i]) && pos == |Concat(nodes[..i])|
        decreases |nodes| - i
      {
        ConcatNext(nodes, i);
        SumLenNext(nodes, i);
        SumLenGrows(nodes, i + 1);
        SoundNext(nodes, i);
        if pos + tmp.len > ret.Length || tmp.len > |tmp.str| + 1 {
          return false, pos;
        }
        CopyAt(ret, pos, (tmp.str + [NUL])[..tmp.len], tmp.len);
        assert tmp.len == |tmp.str| ==> (tmp.str + [NUL])[..tmp.len] == tmp.str;
        pos := pos + tmp.len;
        tmp := tmp.next;
        i := i + 1;
      }
      assert nodes[..|nodes|] == nodes;
      ok := pos < ret.Length;
    }

    /** `string_buf_dump`: one string with everything that was pushed; the buffer is empty again. It stays within
        the blocks it reads and writes if and only if no NUL was pushed. */
    method Dump() returns (ok: bool, ret: array<byte>)
      requires Valid()
      modifies this
      ensures ok <==> old(Sound())
      ensures ok ==> Valid() && nodes == [] && fresh(ret)
      ensures ok ==> ret[..] == old(Contents()) + [NUL] && CString(ret[..]) == old(Contents())
    {
      ghost var text := Contents();
      ConcatNulFree(nodes);
      var len := TotalLength();
      ret := new byte[len + 1];
      var pos;
      ok, pos := CopyInto(ret);
      if !ok {
        // the code has no such test: it reads or writes past the end of a block
        return;
      }
      head, last, nodes := null, null, [];
      ret[pos] := NUL;
      assert ret[..] == text + [NUL];
      CStringStops(text, []);
      CStringFacts(text);
      assert text + [NUL] + [] == text + [NUL];
    }
  }

  lemma NodesPush(nodes: seq<Node>, n: Node)
    ensures Concat(nodes + [n]) == Concat(nodes) + n.str
    ensures AllSound(nodes + [n]) <==> AllSound(nodes) && n.len == |n.str|
  {
    assert (nodes + [n])[..|nodes|] == nodes;
    assert forall i | 0 <= i < |nodes| :: (nodes + [n])[i] == nodes[i];
    assert (nodes + [n])[|nodes|] == n;
  }

  lemma ConcatNone(nodes: seq<Node>)
    ensures Concat(nodes[..0]) == [] && SumLen(nodes[..0]) == 0
  {}

  lemma SoundNext(nodes: seq<Node>, i: nat)
    requires i < |nodes|
    ensures AllSound(nodes[..i+1]) <==> AllSound(nodes[..i]) && nodes[i].len == |nodes[i].str|
    ensures AllSound(nodes) ==> AllSound(nodes[..i+1])
  {
    assert forall j | 0 <= j < i :: nodes[..i+1][j] == nodes[..i][j];
    assert nodes[..i+1][i] == nodes[i];
  }

  method CopyAt(ret: array<byte>, pos: nat, str: Bytes, len: nat)
    requires len == |str| && pos + len <= ret.Length
    modifies ret
    ensures ret[..pos + len] == old(ret[..pos]) + str && ret[pos + len..] == old(ret[pos + len..])
  {
    forall k | 0 <= k < len {
      ret[pos + k] := str[k];
    }
  }
}
