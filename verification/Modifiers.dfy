/** `find_modifiers` of plugins/xorg/xorg.c: eight linked lists in shared arrays. Which
    modifiers a key activates is a parameter. */
module Modifiers {
  import opened Bits

  const MODS := 8
  const MAX_KEYCODE := 256

  // ---------------------------------------------------------------- what is computed

  /** The keys from `lo` below `hi` that activate modifier `j`, the last one first. */
  function Keys(active: (nat, nat) -> bool, j: nat, lo: nat, hi: nat): seq<nat>
    decreases hi
  {
    if hi <= lo then []
    else Front(active(hi - 1, j), hi - 1, Keys(active, j, lo, hi - 1))
  }

  function Front(found: bool, k: nat, rest: seq<nat>): seq<nat> {
    if found then [k] + rest else rest
  }

  ghost predicate Descending(s: seq<nat>) {
    forall a, b | 0 <= a < b < |s| :: s[a] > s[b]
  }

  /** They are the keys that activate the modifier, all of them, each once, in descending order. */
  lemma {:induction false} KeysExact(active: (nat, nat) -> bool, j: nat, lo: nat, hi: nat)
    ensures forall k: nat :: k in Keys(active, j, lo, hi) <==> lo <= k < hi && active(k, j)
    ensures Descending(Keys(active, j, lo, hi))
    decreases hi
  {
    if hi <= lo {
      assert Keys(active, j, lo, hi) == [];
    } else {
      hide Descending, Front;
      KeysExact(active, j, lo, hi - 1);
      FrontExact(active(hi - 1, j), hi - 1, Keys(active, j, lo, hi - 1));
    }
  }

  lemma FrontExact(found: bool, k: nat, rest: seq<nat>)
    requires Descending(rest) && forall x | x in rest :: x < k
    ensures Descending(Front(found, k, rest))
    ensures forall x :: x in Front(found, k, rest) <==> x in rest || (found && x == k)
  {
    hide Descending;
    if found { DescendingFront(k, rest); }
  }

  lemma DescendingFront(k: nat, rest: seq<nat>)
    requires Descending(rest) && forall x | x in rest :: x < k
    ensures Descending([k] + rest)
  {
    var ks := [k] + rest;
    forall a, b | 0 <= a < b < |ks| ensures ks[a] > ks[b] {
      var y := rest[b-1];
      assert ks[b] == y && y in rest;
      if a > 0 {
        DescendingAt(rest, a - 1, b - 1);
        assert ks[a] == rest[a-1];
      }
      hide Descending;
    }
  }

  lemma DescendingAt(s: seq<nat>, a: nat, b: nat)
    requires Descending(s) && a < b < |s|
    ensures s[a] > s[b]
  {}

  lemma {:induction false} KeysGrow(active: (nat, nat) -> bool, j: nat, lo: nat, mid: nat, hi: nat)
    requires mid <= hi
    ensures |Keys(active, j, lo, mid)| <= |Keys(active, j, lo, hi)|
    decreases hi
  {
    if mid < hi { KeysGrow(active, j, lo, mid, hi - 1); }
  }

  function Sum(s: seq<nat>): nat {
    if s == [] then 0 else Sum(s[..|s|-1]) + s[|s|-1]
  }

  lemma {:induction false} SumAt(s: seq<nat>, j: nat, x: nat)
    requires j < |s|
    ensures Sum(s[j := x]) + s[j] == Sum(s) + x
  {
    var n, t := |s| - 1, s[j := x];
    if j < n {
      assert t[..n] == s[..n][j := x];
      SumAt(s[..n], j, x);
    } else {
      assert t[..n] == s[..n];
    }
  }

  lemma {:induction false} SumMono(s: seq<nat>, t: seq<nat>)
    requires |s| == |t| && forall j | 0 <= j < |s| :: s[j] <= t[j]
    ensures Sum(s) <= Sum(t)
  {
    if s != [] { SumMono(s[..|s|-1], t[..|t|-1]); }
  }

  /** How many entries each modifier has. */
  function Counts(active: (nat, nat) -> bool, lo: nat, hi: nat): seq<nat> {
    seq(MODS, j requires 0 <= j => |Keys(active, j, lo, hi)|)
  }

  function Max(s: seq<nat>): nat {
    if s == [] then 0 else
      var m := Max(s[..|s|-1]);
      if s[|s|-1] > m then s[|s|-1] else m
  }

  lemma {:induction false} MaxIsMost(s: seq<nat>)
    ensures forall j | 0 <= j < |s| :: s[j] <= Max(s)
    ensures Max(s) == 0 || Max(s) in s
  {
    if s != [] { MaxIsMost(s[..|s|-1]); }
  }

  // ---------------------------------------------------------------- lists in arrays

  function Successor(l: seq<nat>, k: nat): int {
    if k + 1 < |l| then l[k+1] else -1
  }

  /** The list that starts at `head` runs through the indices `l`. */
  ghost predicate Chain(next: seq<int>, head: int, l: seq<nat>) {
    && head == (if l == [] then -1 else l[0])
    && forall k | 0 <= k < |l| :: l[k] < |next| && next[l[k]] == Successor(l, k)
  }

  ghost predicate AllBelow(l: seq<nat>, total: nat) {
    forall x | x in l :: x < total
  }

  ghost predicate Apart(k: seq<nat>, l: seq<nat>) {
    forall x | x in k :: x !in l
  }

  /** Eight lists that share no node, have no cycle, and together use the first `total` nodes. */
  ghost predicate Lists(next: seq<int>, heads: seq<int>, lists: seq<seq<nat>>, total: nat) {
    && |heads| == |lists| == MODS
    && (forall j | 0 <= j < MODS :: Chain(next, heads[j], lists[j]) && AllBelow(lists[j], total) && Descending(lists[j]))
    && (forall i, j | 0 <= i < j < MODS :: Apart(lists[i], lists[j]))
  }

  ghost predicate Holds(l: seq<nat>, keycodes: seq<int>, keys: seq<nat>) {
    |l| == |keys| && forall k | 0 <= k < |l| :: l[k] < |keycodes| && keycodes[l[k]] == keys[k]
  }

  /** The keys found so far: up to key `i`, of which the modifiers below `j` are seen. */
  function Found(active: (nat, nat) -> bool, lo: nat, i: nat, j: nat, m: nat): seq<nat> {
    Keys(active, m, lo, if m < j then i + 1 else i)
  }

  ghost predicate AllHold(active: (nat, nat) -> bool, lo: nat, i: nat, j: nat, lists: seq<seq<nat>>, keycodes: seq<int>, counts: seq<nat>) {
    && |lists| == |counts| == MODS
    && forall m | 0 <= m < MODS :: Holds(lists[m], keycodes, Found(active, lo, i, j, m)) && counts[m] == |lists[m]|
  }

  ghost predicate State(next: seq<int>, heads: seq<int>, keycodes: seq<int>, counts: seq<nat>, lists: seq<seq<nat>>, total: nat,
                        active: (nat, nat) -> bool, lo: nat, i: nat, j: nat) {
    && |next| == |keycodes| == MAX_KEYCODE && total <= MAX_KEYCODE && total == Sum(counts)
    && Lists(next, heads, lists, total) && AllHold(active, lo, i, j, lists, keycodes, counts)
  }

  lemma NoneFound(next: seq<int>, keycodes: seq<int>, active: (nat, nat) -> bool, lo: nat)
    requires |next| == |keycodes| == MAX_KEYCODE
    ensures State(next, seq(MODS, _ => -1), keycodes, seq(MODS, _ => 0), seq(MODS, _ => []), 0, active, lo, lo, 0)
  {
    var z: seq<nat> := seq(MODS, _ => 0);
    Zeros(z);
    var lists: seq<seq<nat>> := seq(MODS, _ => []);
    assert forall m | 0 <= m < MODS :: Found(active, lo, lo, 0, m) == [];
  }

  lemma {:induction false} Zeros(s: seq<nat>)
    requires forall k | 0 <= k < |s| :: s[k] == 0
    ensures Sum(s) == 0
  {
    if s != [] { Zeros(s[..|s|-1]); }
  }

  /** There is one entry more in the end, for as long as another one is found. */
  lemma MoreToCome(active: (nat, nat) -> bool, lo: nat, i: nat, j: nat, hi: nat, lists: seq<seq<nat>>, keycodes: seq<int>, counts: seq<nat>)
    requires AllHold(active, lo, i, j, lists, keycodes, counts) && lo <= i < hi && j < MODS && active(i, j)
    ensures Sum(counts) < Sum(Counts(active, lo, hi)) && Sum(counts[j := counts[j] + 1]) == Sum(counts) + 1
  {
    SumAt(counts, j, counts[j] + 1);
    var more, all := counts[j := counts[j] + 1], Counts(active, lo, hi);
    forall m | 0 <= m < MODS ensures more[m] <= all[m] {
      assert Holds(lists[m], keycodes, Found(active, lo, i, j, m));
      KeysGrow(active, m, lo, if m <= j then i + 1 else i, hi);
    }
    SumMono(more, all);
  }

  lemma ListsPush(next: seq<int>, heads: seq<int>, lists: seq<seq<nat>>, total: nat, j: nat)
    requires Lists(next, heads, lists, total) && j < MODS && total < |next|
    ensures Lists(next[total := heads[j]], heads[j := total], lists[j := [total] + lists[j]], total + 1)
  {
    var next', heads', lists' := next[total := heads[j]], heads[j := total], lists[j := [total] + lists[j]];
    hide Chain, AllBelow, Descending, Apart;
    forall m | 0 <= m < MODS
      ensures Chain(next', heads'[m], lists'[m]) && AllBelow(lists'[m], total + 1) && Descending(lists'[m])
    {
      ListPush(next, heads[m], lists[m], total, heads[j]);
    }
    forall i, m | 0 <= i < m < MODS ensures Apart(lists'[i], lists'[m]) {
      ApartPush(lists[i], lists[m], total);
    }
  }

  lemma ApartPush(k: seq<nat>, l: seq<nat>, total: nat)
    requires Apart(k, l) && AllBelow(k, total) && AllBelow(l, total)
    ensures Apart([total] + k, l) && Apart(k, [total] + l)
  {}

  lemma ListPush(next: seq<int>, head: int, l: seq<nat>, total: nat, x: int)
    requires Chain(next, head, l) && AllBelow(l, total) && Descending(l) && total < |next|
    ensures Chain(next[total := x], head, l) && AllBelow(l, total + 1) && Descending(l)
    ensures AllBelow([total] + l, total + 1) && Descending([total] + l)
    ensures x == head ==> Chain(next[total := x], total, [total] + l)
  {
    ChainPush(next, head, l, total, x);
    hide Chain;
    DescendingFront(total, l);
  }

  /** A free node can be written without disturbing a list, or put in front of it. */
  lemma ChainPush(next: seq<int>, head: int, l: seq<nat>, total: nat, x: int)
    requires Chain(next, head, l) && total < |next| && AllBelow(l, total)
    ensures Chain(next[total := x], head, l)
    ensures x == head ==> Chain(next[total := x], total, [total] + l)
  {
    forall k | 0 <= k < |l| ensures l[k] < total && next[total := x][l[k]] == Successor(l, k) {
      assert l[k] in l;
    }
    hide AllBelow;
    var l' := [total] + l;
    forall k | 0 < k < |l'| ensures l'[k] == l[k-1] && Successor(l', k) == Successor(l, k - 1) {}
  }

  lemma HoldsPush(active: (nat, nat) -> bool, lo: nat, i: nat, j: nat,
                  lists: seq<seq<nat>>, keycodes: seq<int>, counts: seq<nat>, total: nat)
    requires AllHold(active, lo, i, j, lists, keycodes, counts) && lo <= i && j < MODS && active(i, j) && total < |keycodes|
    requires |lists| == MODS && forall m | 0 <= m < MODS :: AllBelow(lists[m], total)
    ensures AllHold(active, lo, i, j + 1, lists[j := [total] + lists[j]], keycodes[total := i], counts[j := counts[j] + 1])
  {
    var lists', keycodes' := lists[j := [total] + lists[j]], keycodes[total := i];
    forall m | 0 <= m < MODS ensures Holds(lists'[m], keycodes', Found(active, lo, i, j + 1, m)) {
      assert forall k | 0 <= k < |lists[m]| :: lists[m][k] in lists[m];
      assert Holds(lists[m], keycodes, Found(active, lo, i, j, m));
    }
  }

  lemma HoldsSkip(active: (nat, nat) -> bool, lo: nat, i: nat, j: nat, lists: seq<seq<nat>>, keycodes: seq<int>, counts: seq<nat>)
    requires AllHold(active, lo, i, j, lists, keycodes, counts) && lo <= i && j < MODS && !active(i, j)
    ensures AllHold(active, lo, i, j + 1, lists, keycodes, counts)
  {
    forall m | 0 <= m < MODS ensures Holds(lists[m], keycodes, Found(active, lo, i, j + 1, m)) {
      assert Holds(lists[m], keycodes, Found(active, lo, i, j, m));
    }
  }

  lemma HoldsKey(active: (nat, nat) -> bool, lo: nat, i: nat, lists: seq<seq<nat>>, keycodes: seq<int>, counts: seq<nat>)
    requires AllHold(active, lo, i, MODS, lists, keycodes, counts)
    ensures AllHold(active, lo, i + 1, 0, lists, keycodes, counts)
  {
    forall m | 0 <= m < MODS ensures Holds(lists[m], keycodes, Found(active, lo, i + 1, 0, m)) {
      assert Holds(lists[m], keycodes, Found(active, lo, i, MODS, m));
    }
  }

  /** One entry more, at the head of the list of modifier `j`. */
  method Record(next: array<int>, heads: array<int>, keycodes: array<int>, counts: array<nat>, total: nat, i: nat, j: nat,
                ghost lists: seq<seq<nat>>, ghost active: (nat, nat) -> bool, ghost lo: nat, ghost hi: nat)
      returns (ghost lists': seq<seq<nat>>)
    requires next != heads && next != keycodes && heads != keycodes
    requires State(next[..], heads[..], keycodes[..], counts[..], lists, total, active, lo, i, j)
    requires lo <= i < hi && j < MODS && active(i, j) && total < MAX_KEYCODE
    modifies next, heads, keycodes, counts
    ensures State(next[..], heads[..], keycodes[..], counts[..], lists', total + 1, active, lo, i, j + 1)
  {
    hide Sum, Counts, Keys, Found, Chain, Holds;
    ghost var n0, h0, k0, c0 := next[..], heads[..], keycodes[..], counts[..];
    MoreToCome(active, lo, i, j, hi, lists, k0, c0);
    ListsPush(n0, h0, lists, total, j);
    HoldsPush(active, lo, i, j, lists, k0, c0, total);
    next[total] := heads[j];
    heads[j] := total;
    keycodes[total] := i;
    counts[j] := counts[j] + 1;
    lists' := lists[j := [total] + lists[j]];
    assert next[..] == n0[total := h0[j]] && heads[..] == h0[j := total];
    assert keycodes[..] == k0[total := i] && counts[..] == c0[j := c0[j] + 1];
  }

  /** The first loops of `find_modifiers`: pressing every key. It fails exactly if there are more entries than
      the arrays have room for: the code, which does not check, then writes past their ends. */
  method Scan(next: array<int>, heads: array<int>, keycodes: array<int>, counts: array<nat>, min: nat, max: nat, active: (nat, nat) -> bool)
      returns (ok: bool, total: nat, ghost lists: seq<seq<nat>>)
    requires next != heads && next != keycodes && heads != keycodes && next.Length == keycodes.Length == MAX_KEYCODE
    requires heads[..] == seq(MODS, _ => -1) && counts[..] == seq(MODS, _ => 0)
    modifies next, heads, keycodes, counts
    ensures ok <==> Sum(Counts(active, min, max + 1)) <= MAX_KEYCODE
    ensures ok ==>
      State(next[..], heads[..], keycodes[..], counts[..], lists, total, active, min, if min <= max then max + 1 else min, 0)
  {
    hide State, Sum, Counts;
    ok, total, lists := true, 0, seq(MODS, _ => []);
    NoneFound(next[..], keycodes[..], active, min);
    var i := min;
    while i <= max
      invariant min <= i && (min <= max ==> i <= max + 1) && (max < min ==> i == min)
      invariant State(next[..], heads[..], keycodes[..], counts[..], lists, total, active, min, i, 0)
    {
      for j := 0 to MODS
        invariant State(next[..], heads[..], keycodes[..], counts[..], lists, total, active, min, i, j)
      {
        if active(i, j) {
          if total == MAX_KEYCODE {
            TooMany(next[..], heads[..], keycodes[..], counts[..], lists, total, active, min, i, j, max + 1);
            return false, total, lists;
          }
          InRoom(next[..], heads[..], keycodes[..], counts[..], lists, total, active, min, i, j);
          lists := Record(next, heads, keycodes, counts, total, i, j, lists, active, min, max + 1);
          total := total + 1;
        } else {
          SkipState(next[..], heads[..], keycodes[..], counts[..], lists, total, active, min, i, j);
        }
      }
      KeyState(next[..], heads[..], keycodes[..], counts[..], lists, total, active, min, i);
      i := i + 1;
    }
    Scanned(next[..], heads[..], keycodes[..], counts[..], lists, total, active, min, max);
    InRoom(next[..], heads[..], keycodes[..], counts[..], lists, total, active, min, i, 0);
  }

  lemma TooMany(next: seq<int>, heads: seq<int>, keycodes: seq<int>, counts: seq<nat>, lists: seq<seq<nat>>, total: nat,
                active: (nat, nat) -> bool, lo: nat, i: nat, j: nat, hi: nat)
    requires State(next, heads, keycodes, counts, lists, total, active, lo, i, j)
    requires lo <= i < hi && j < MODS && active(i, j)
    ensures total < Sum(Counts(active, lo, hi))
  {
    MoreToCome(active, lo, i, j, hi, lists, keycodes, counts);
    hide Sum, Counts;
  }

  lemma InRoom(next: seq<int>, heads: seq<int>, keycodes: seq<int>, counts: seq<nat>, lists: seq<seq<nat>>, total: nat,
               active: (nat, nat) -> bool, lo: nat, i: nat, j: nat)
    requires State(next, heads, keycodes, counts, lists, total, active, lo, i, j)
    ensures total == Sum(counts) <= MAX_KEYCODE
  {}

  lemma SkipState(next: seq<int>, heads: seq<int>, keycodes: seq<int>, counts: seq<nat>, lists: seq<seq<nat>>, total: nat,
                  active: (nat, nat) -> bool, lo: nat, i: nat, j: nat)
    requires State(next, heads, keycodes, counts, lists, total, active, lo, i, j) && lo <= i && j < MODS && !active(i, j)
    ensures State(next, heads, keycodes, counts, lists, total, active, lo, i, j + 1)
  {
    HoldsSkip(active, lo, i, j, lists, keycodes, counts);
  }

  lemma KeyState(next: seq<int>, heads: seq<int>, keycodes: seq<int>, counts: seq<nat>, lists: seq<seq<nat>>, total: nat,
                 active: (nat, nat) -> bool, lo: nat, i: nat)
    requires State(next, heads, keycodes, counts, lists, total, active, lo, i, MODS)
    ensures State(next, heads, keycodes, counts, lists, total, active, lo, i + 1, 0)
  {
    HoldsKey(active, lo, i, lists, keycodes, counts);
  }

  // ---------------------------------------------------------------- the table

  /** The cells from `base` on hold `row`, and 0 behind it. */
  ghost predicate RowAt(table: seq<nat>, base: nat, width: nat, row: seq<nat>) {
    base + width <= |table| && forall k | base <= k < base + width :: table[k] == if k - base < |row| then row[k - base] else 0
  }

  /** Following one list to fill one row. */
  method FillRow(table: array<nat>, base: nat, width: nat, head: int, next: array<int>, keycodes: array<int>,
                 ghost l: seq<nat>, ghost row: seq<nat>)
    requires base + width <= table.Length && |row| <= width
    requires forall k | base <= k < base + width :: table[k] == 0
    requires Row(next[..], head, keycodes[..], l, row)
    modifies table
    ensures RowAt(table[..], base, width, row)
    ensures table[..base] == old(table[..base]) && table[base + width..] == old(table[base + width..])
  {
    hide Row;
    var cnt, curr := 0, head;
    RowBegins(next[..], head, keycodes[..], l, row);
    while curr != -1
      invariant cnt <= |l| == |row| && curr == if cnt < |l| then l[cnt] else -1
      invariant forall k | base <= k < base + width :: table[k] == if k - base < cnt then row[k - base] else 0
      invariant table[..base] == old(table[..base]) && table[base + width..] == old(table[base + width..])
      decreases |l| - cnt
    {
      RowStep(next[..], head, keycodes[..], l, row, cnt);
      table[base + cnt] := keycodes[curr];
      curr := next[curr];
      cnt := cnt + 1;
    }
  }

  lemma RowBegins(next: seq<int>, head: int, keycodes: seq<int>, l: seq<nat>, row: seq<nat>)
    requires Row(next, head, keycodes, l, row)
    ensures |l| == |row| && head == if l == [] then -1 else l[0]
  {}

  lemma RowStep(next: seq<int>, head: int, keycodes: seq<int>, l: seq<nat>, row: seq<nat>, cnt: nat)
    requires Row(next, head, keycodes, l, row) && cnt < |l|
    ensures |l| == |row| && l[cnt] < |next| && l[cnt] < |keycodes| && keycodes[l[cnt]] == row[cnt]
    ensures next[l[cnt]] == if cnt + 1 < |l| then l[cnt+1] else -1
  {}

  /** `find_modifiers`: if there is room for all entries, the table has a row of `width` keycodes for each
      modifier, and every row is exactly the keys of its modifier, the last one first, filled up with
      zeros. There is room exactly if there are at most 256 entries. */
  method FindModifiers(min: nat, max: nat, active: (nat, nat) -> bool) returns (ok: bool, width: nat, table: array<nat>)
    ensures ok <==> Sum(Counts(active, min, max + 1)) <= MAX_KEYCODE
    ensures ok ==> width == Max(Counts(active, min, max + 1)) && table.Length == Base(MODS, width) && fresh(table)
    ensures ok ==> forall j | 0 <= j < MODS :: RowAt(table[..], Base(j, width), width, Keys(active, j, min, max + 1))
  {
    hide Sum, Max, Counts, Keys, State, Row, RowAt;
    var next, keycodes := new int[MAX_KEYCODE](_ => -1), new int[MAX_KEYCODE](_ => 0);
    var heads, counts := new int[MODS](_ => -1), new nat[MODS](_ => 0);
    assert heads[..] == seq(MODS, _ => -1) && counts[..] == seq(MODS, _ => 0);
    var total;
    ghost var lists;
    ok, total, lists := Scan(next, heads, keycodes, counts, min, max, active);
    if !ok {
      return false, 0, new nat[0];
    }
    Scanned(next[..], heads[..], keycodes[..], counts[..], lists, total, active, min, max);
    width := Widest(counts);
    RowsFit(active, min, max + 1);
    table := new nat[MODS * width](_ => 0);
    FillTable(table, width, heads, next, keycodes, lists, active, min, max + 1);
  }

  /** A keymap can have too many: 33 keys that activate all modifiers make 264 entries. */
  method TooManyEntries() returns (ok: bool, active: (nat, nat) -> bool)
    ensures Sum(Counts(active, 8, 41)) == 264 && !ok
  {
    active := (k, j) => true;
    EntriesOfAll(active, 8, 41);
    var width, table;
    ok, width, table := FindModifiers(8, 40, active);
  }

  lemma {:induction false} KeysOfAll(active: (nat, nat) -> bool, j: nat, lo: nat, hi: nat)
    requires lo <= hi && forall k :: active(k, j)
    ensures |Keys(active, j, lo, hi)| == hi - lo
    decreases hi
  {
    if lo < hi { KeysOfAll(active, j, lo, hi - 1); }
  }

  lemma EntriesOfAll(active: (nat, nat) -> bool, lo: nat, hi: nat)
    requires lo <= hi && forall k, j :: active(k, j)
    ensures Sum(Counts(active, lo, hi)) == MODS * (hi - lo)
  {
    var counts := Counts(active, lo, hi);
    forall j | 0 <= j < MODS ensures counts[j] == hi - lo { KeysOfAll(active, j, lo, hi); }
    SumOfEqual(counts, hi - lo);
  }

  lemma {:induction false} SumOfEqual(s: seq<nat>, n: nat)
    requires forall j | 0 <= j < |s| :: s[j] == n
    ensures Sum(s) == |s| * n
  {
    if s != [] {
      SumOfEqual(s[..|s|-1], n);
      assert |s| * n == (|s| - 1) * n + n;
    }
  }

  /** The lists after the last key. */
  lemma Scanned(next: seq<int>, heads: seq<int>, keycodes: seq<int>, counts: seq<nat>, lists: seq<seq<nat>>, total: nat,
                active: (nat, nat) -> bool, min: nat, max: nat)
    requires State(next, heads, keycodes, counts, lists, total, active, min, if min <= max then max + 1 else min, 0)
    ensures counts == Counts(active, min, max + 1)
    ensures |heads| == |lists| == MODS
    ensures forall j | 0 <= j < MODS :: Row(next, heads[j], keycodes, lists[j], Keys(active, j, min, max + 1))
  {
    var hi := if min <= max then max + 1 else min;
    forall j | 0 <= j < MODS ensures Row(next, heads[j], keycodes, lists[j], Keys(active, j, min, max + 1)) {
      assert Holds(lists[j], keycodes, Found(active, min, hi, 0, j));
      assert Keys(active, j, min, hi) == Keys(active, j, min, max + 1);
    }
  }

  lemma RowsFit(active: (nat, nat) -> bool, lo: nat, hi: nat)
    ensures forall j | 0 <= j < MODS :: |Keys(active, j, lo, hi)| <= Max(Counts(active, lo, hi))
  {
    var counts := Counts(active, lo, hi);
    MaxIsMost(counts);
    forall j | 0 <= j < MODS ensures |Keys(active, j, lo, hi)| <= Max(counts) {
      assert counts[j] == |Keys(active, j, lo, hi)|;
    }
  }

  ghost predicate Row(next: seq<int>, head: int, keycodes: seq<int>, l: seq<nat>, row: seq<nat>) {
    Chain(next, head, l) && Holds(l, keycodes, row)
  }

  /** Where row `j` begins. */
  function Base(j: nat, width: nat): nat {
    j * width
  }

  lemma RowsApart(m: nat, j: nat, width: nat)
    requires m < j
    ensures Base(m, width) + width == Base(m + 1, width) <= Base(j, width)
  {
    assert (m + 1) * width == m * width + width;
    MulMono(width, m + 1, j);
  }

  method FillTable(table: array<nat>, width: nat, heads: array<int>, next: array<int>, keycodes: array<int>,
                   ghost lists: seq<seq<nat>>, ghost active: (nat, nat) -> bool, ghost lo: nat, ghost hi: nat)
    requires heads.Length == |lists| == MODS && table.Length == Base(MODS, width)
    requires forall k | 0 <= k < table.Length :: table[k] == 0
    requires forall j | 0 <= j < MODS :: Row(next[..], heads[j], keycodes[..], lists[j], Keys(active, j, lo, hi))
    requires forall j | 0 <= j < MODS :: |Keys(active, j, lo, hi)| <= width
    modifies table
    ensures forall j | 0 <= j < MODS :: RowAt(table[..], Base(j, width), width, Keys(active, j, lo, hi))
  {
    hide Keys, Row, RowAt, Base;
    BaseZero(width);
    for j := 0 to MODS
      invariant forall m | 0 <= m < j :: RowAt(table[..], Base(m, width), width, Keys(active, m, lo, hi))
      invariant forall k | Base(j, width) <= k < table.Length :: table[k] == 0
    {
      RowsApart(j, MODS, width);
      ghost var t0 := table[..];
      FillRow(table, Base(j, width), width, heads[j], next, keycodes, lists[j], Keys(active, j, lo, hi));
      forall m | 0 <= m < j ensures RowAt(table[..], Base(m, width), width, Keys(active, m, lo, hi)) {
        RowsApart(m, j, width);
        RowKept(t0, table[..], Base(m, width), Base(j, width), width, Keys(active, m, lo, hi));
      }
    }
  }

  lemma BaseZero(width: nat)
    ensures Base(0, width) == 0
  {}

  lemma RowKept(t: seq<nat>, t': seq<nat>, base: nat, limit: nat, width: nat, row: seq<nat>)
    requires RowAt(t, base, width, row) && base + width <= limit <= |t| == |t'| && t'[..limit] == t[..limit]
    ensures RowAt(t', base, width, row)
  {
    assert forall k | 0 <= k < limit :: t'[k] == t'[..limit][k] == t[..limit][k] == t[k];
  }

  method Widest(counts: array<nat>) returns (width: nat)
    ensures width == Max(counts[..])
  {
    width := 0;
    for i := 0 to counts.Length
      invariant width == Max(counts[..i])
    {
      assert counts[..i+1][..i] == counts[..i];
      if counts[i] > width {
        width := counts[i];
      }
    }
    assert counts[..counts.Length] == counts[..];
  }
}
