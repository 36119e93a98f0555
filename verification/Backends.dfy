/**
 Backend lists and the health-checked balancer: parsing, round robin over the healthy members, health
 from probe results, and the bounded map of groups.
 */
module BackendList {
  const SEP := '|'

  predicate IsSpace(c: char) {
    var u := c as int;
    0x09 <= u <= 0x0D || u == 0x20 || u == 0x85 || u == 0xA0 || u == 0x1680 || 0x2000 <= u <= 0x200A
    || u == 0x2028 || u == 0x2029 || u == 0x202F || u == 0x205F || u == 0x3000
  }

  predicate Trimmed(s: string) {
    s != "" ==> !IsSpace(s[0]) && !IsSpace(s[|s| - 1])
  }

  function Trim(s: string): (t: string)
    ensures Trimmed(t) && (Trimmed(s) ==> t == s)
    ensures SEP !in s ==> SEP !in t
    decreases |s|
  {
    if s != "" && IsSpace(s[0]) then Trim(s[1..])
    else if s != "" && IsSpace(s[|s| - 1]) then Trim(s[..|s| - 1])
    else s
  }

  predicate Blanks(s: string, from: nat, to: nat)
    requires to <= |s|
  {
    forall k | from <= k < to :: IsSpace(s[k])
  }

  predicate Blank(s: string) {
    Blanks(s, 0, |s|)
  }

  predicate AroundAt(s: string, t: string, i: nat, j: nat) {
    i <= j <= |s| && s[i..j] == t && Blanks(s, 0, i) && Blanks(s, j, |s|)
  }

  /** The string is t with nothing but blanks on either side. */
  predicate Around(s: string, t: string) {
    exists i, j | 0 <= i <= j <= |s| :: AroundAt(s, t, i, j)
  }

  lemma AroundTail(s: string, t: string, i: nat, j: nat)
    requires s != "" && IsSpace(s[0]) && i <= j < |s|
    ensures AroundAt(s[1..], t, i, j) <==> AroundAt(s, t, i + 1, j + 1)
  {
    hide IsSpace;
    assert s[1..][i..j] == s[i + 1..j + 1];
    assert forall k: nat | k < |s| - 1 :: s[1..][k] == s[k + 1];
    assert forall k: nat | 0 < k < |s| :: s[k] == s[1..][k - 1];
  }

  lemma AroundFront(s: string, t: string, i: nat, j: nat)
    requires s != "" && IsSpace(s[|s| - 1]) && i <= j < |s|
    ensures AroundAt(s[..|s| - 1], t, i, j) <==> AroundAt(s, t, i, j)
  {
    hide IsSpace;
    assert s[..|s| - 1][i..j] == s[i..j];
  }

  lemma Inside(s: string, t: string, i: nat, j: nat)
    requires AroundAt(s, t, i, j)
    ensures i < j ==> t != "" && t[0] == s[i] && t[|t| - 1] == s[j - 1]
    ensures i == j ==> t == ""
    ensures i > 0 ==> IsSpace(s[0])
    ensures j < |s| ==> IsSpace(s[|s| - 1])
  {
    hide IsSpace;
  }

  /** A trimmed string inside one that begins with a blank begins later. */
  lemma NotAtStart(s: string, t: string, j: nat)
    requires s != "" && IsSpace(s[0]) && Trimmed(t) && AroundAt(s, t, 0, j)
    ensures j == 0 && AroundAt(s, t, 1, 1)
  {
    hide IsSpace;
    Inside(s, t, 0, j);
  }

  lemma NotAtEnd(s: string, t: string, i: nat)
    requires s != "" && IsSpace(s[|s| - 1]) && Trimmed(t) && AroundAt(s, t, i, |s|)
    ensures i == |s| && AroundAt(s, t, |s| - 1, |s| - 1)
  {
    hide IsSpace;
    Inside(s, t, i, |s|);
  }

  lemma AroundFirst(s: string, t: string)
    requires s != "" && IsSpace(s[0]) && Trimmed(t)
    ensures Around(s, t) <==> Around(s[1..], t)
  {
    hide IsSpace, AroundAt, Trimmed;
    if Around(s, t) {
      var i, j :| 0 <= i <= j <= |s| && AroundAt(s, t, i, j);
      if i == 0 {
        NotAtStart(s, t, j);
        i, j := 1, 1;
      }
      AroundTail(s, t, i - 1, j - 1);
    }
    if Around(s[1..], t) {
      var i, j :| 0 <= i <= j <= |s[1..]| && AroundAt(s[1..], t, i, j);
      AroundTail(s, t, i, j);
    }
  }

  lemma AroundLast(s: string, t: string)
    requires s != "" && IsSpace(s[|s| - 1]) && Trimmed(t)
    ensures Around(s, t) <==> Around(s[..|s| - 1], t)
  {
    hide IsSpace, AroundAt, Trimmed;
    var front := s[..|s| - 1];
    if Around(s, t) {
      var i, j :| 0 <= i <= j <= |s| && AroundAt(s, t, i, j);
      if j == |s| {
        NotAtEnd(s, t, i);
        i, j := |s| - 1, |s| - 1;
      }
      AroundFront(s, t, i, j);
    }
    if Around(front, t) {
      var i, j :| 0 <= i <= j <= |front| && AroundAt(front, t, i, j);
      AroundFront(s, t, i, j);
    }
  }

  lemma AroundTrimmed(s: string, t: string)
    requires Trimmed(s)
    ensures t == s <==> Around(s, t) && Trimmed(t)
  {
    hide IsSpace;
    assert AroundAt(s, s, 0, |s|);
    if Around(s, t) {
      var i, j :| 0 <= i <= j <= |s| && AroundAt(s, t, i, j);
      Inside(s, t, i, j);
    }
  }

  /** Trimming takes the blanks off either end and nothing else. */
  lemma {:induction false} TrimIff(s: string, t: string)
    ensures t == Trim(s) <==> Around(s, t) && Trimmed(t)
    decreases |s|
  {
    hide IsSpace, Around;
    if s != "" && IsSpace(s[0]) {
      TrimIff(s[1..], t);
      if Trimmed(t) {
        AroundFirst(s, t);
      }
    } else if s != "" && IsSpace(s[|s| - 1]) {
      TrimIff(s[..|s| - 1], t);
      if Trimmed(t) {
        AroundLast(s, t);
      }
    } else {
      AroundTrimmed(s, t);
    }
  }

  /** Cutting at every separator; a string without one is a single piece. */
  function Cut(s: string): (pieces: seq<string>)
    ensures pieces != [] && forall i | 0 <= i < |pieces| :: SEP !in pieces[i]
  {
    if s == "" then [""]
    else if s[0] == SEP then [""] + Cut(s[1..])
    else
      var rest := Cut(s[1..]);
      [[s[0]] + rest[0]] + rest[1..]
  }

  function Join(pieces: seq<string>): string {
    if pieces == [] then ""
    else if |pieces| == 1 then pieces[0]
    else pieces[0] + [SEP] + Join(pieces[1..])
  }

  /** The pieces that are left after trimming. */
  function Usable(pieces: seq<string>): (list: seq<string>) {
    if pieces == [] then []
    else
      var p := Trim(pieces[|pieces| - 1]);
      Usable(pieces[..|pieces| - 1]) + if p == "" then [] else [p]
  }

  function Backends(target: string): seq<string> {
    Usable(Cut(target))
  }

  /** The pieces are these addresses in order, with blanks around them and blank pieces between them. */
  predicate Spells(pieces: seq<string>, list: seq<string>) {
    if pieces == [] then list == []
    else
      var front, p := pieces[..|pieces| - 1], pieces[|pieces| - 1];
      if Blank(p) then Spells(front, list)
      else list != [] && Around(p, list[|list| - 1]) && Spells(front, list[..|list| - 1])
  }

  /** An address as a list holds it: not empty, no blanks around it and no separator in it. */
  predicate Address(s: string) {
    s != "" && Trimmed(s) && SEP !in s
  }

  predicate Addresses(list: seq<string>) {
    forall i | 0 <= i < |list| :: Address(list[i])
  }

  lemma {:induction false} UsableAreAddresses(pieces: seq<string>)
    requires forall i | 0 <= i < |pieces| :: SEP !in pieces[i]
    ensures Addresses(Usable(pieces))
  {
    if pieces != [] {
      UsableAreAddresses(pieces[..|pieces| - 1]);
    }
  }

  /** A list of addresses is what is left exactly of the pieces that spell it. */
  lemma {:induction false} UsableIff(pieces: seq<string>, list: seq<string>)
    requires Addresses(list)
    ensures list == Usable(pieces) <==> Spells(pieces, list)
  {
    hide Trim, Around;
    if pieces != [] {
      var front, p := pieces[..|pieces| - 1], pieces[|pieces| - 1];
      BlankIsEmpty(p);
      if list != [] {
        var last := list[|list| - 1];
        AddressesButLast(list);
        UsableIff(front, list[..|list| - 1]);
        TrimIff(p, last);
        assert list == list[..|list| - 1] + [last];
      }
      UsableIff(front, list);
    }
  }

  lemma BlankIsEmpty(p: string)
    ensures Trim(p) == "" <==> Blank(p)
  {
    TrimIff(p, "");
    hide IsSpace, Trim;
    assert Blank(p) ==> AroundAt(p, "", 0, 0);
  }

  /** A target gives exactly the addresses its pieces spell, blanks and empty pieces apart. */
  lemma BackendsIff(target: string, list: seq<string>)
    requires Addresses(list)
    ensures list == Backends(target) <==> Spells(Cut(target), list)
  {
    UsableIff(Cut(target), list);
  }

  lemma AddressesButLast(list: seq<string>)
    requires list != [] && Addresses(list)
    ensures Addresses(list[..|list| - 1]) && list[|list| - 1] != "" && Trim(list[|list| - 1]) == list[|list| - 1]
  {
    hide Trim;
    assert Address(list[|list| - 1]);
  }

  lemma UsableSnoc(pieces: seq<string>, p: string)
    requires p != "" && Trim(p) == p
    ensures Usable(pieces + [p]) == Usable(pieces) + [p]
  {
    hide Trim, Trimmed;
    assert (pieces + [p])[..|pieces|] == pieces;
  }

  lemma SnocBack(list: seq<string>)
    requires list != []
    ensures list == list[..|list| - 1] + [list[|list| - 1]]
  {
  }

  lemma UsableStep(front: seq<string>, p: string, list: seq<string>)
    requires list == front + [p] && p != "" && Trim(p) == p && Usable(front) == front
    ensures Usable(list) == list
  {
    hide *;
    UsableSnoc(front, p);
  }

  lemma {:induction false} UsableKeepsAddresses(list: seq<string>)
    requires Addresses(list)
    ensures Usable(list) == list
  {
    hide Trim, Addresses;
    if list != [] {
      AddressesButLast(list);
      UsableKeepsAddresses(list[..|list| - 1]);
      SnocBack(list);
      UsableStep(list[..|list| - 1], list[|list| - 1], list);
    }
  }

  lemma {:induction false} CutPiece(p: string, rest: string)
    requires SEP !in p
    ensures Cut(p) == [p]
    ensures Cut(p + [SEP] + rest) == [p] + Cut(rest)
  {
    var s := p + [SEP] + rest;
    if p == "" {
      assert s[0] == SEP && s[1..] == rest;
    } else {
      assert s[1..] == p[1..] + [SEP] + rest;
      CutPiece(p[1..], rest);
      assert [s[0]] + p[1..] == p;
      assert ([p[1..]] + Cut(rest))[1..] == Cut(rest);
    }
  }

  lemma {:induction false} CutJoin(pieces: seq<string>)
    requires pieces != [] && forall i | 0 <= i < |pieces| :: SEP !in pieces[i]
    ensures Cut(Join(pieces)) == pieces
  {
    if |pieces| == 1 {
      CutPiece(pieces[0], "");
    } else {
      CutPiece(pieces[0], Join(pieces[1..]));
      CutJoin(pieces[1..]);
      assert [pieces[0]] + pieces[1..] == pieces;
    }
  }

  lemma {:induction false} JoinCut(s: string)
    ensures Join(Cut(s)) == s
  {
    if s != "" {
      JoinCut(s[1..]);
      var rest := Cut(s[1..]);
      if s[0] == SEP {
        assert ([""] + rest)[1..] == rest;
      } else {
        assert ([[s[0]] + rest[0]] + rest[1..])[1..] == rest[1..];
      }
      assert s == [s[0]] + s[1..];
    }
  }

  /** A parsed list joined into a key parses back to the same list, so one list has one key. */
  lemma KeyRoundTrip(list: seq<string>)
    requires list != [] && Addresses(list)
    ensures Backends(Join(list)) == list
  {
    assert forall i | 0 <= i < |list| :: Address(list[i]);
    CutJoin(list);
    UsableKeepsAddresses(list);
  }

  lemma BackendsAreAddresses(target: string)
    ensures Addresses(Backends(target))
  {
    UsableAreAddresses(Cut(target));
  }

  lemma {:induction false} JoinHolds(list: seq<string>)
    requires |list| >= 2
    ensures SEP in Join(list)
  {
    assert Join(list)[|list[0]|] == SEP;
  }

  method SplitBackends(target: string) returns (out: seq<string>)
    ensures out == Backends(target)
  {
    out := [];
    var pieces := Cut(target);
    for i := 0 to |pieces|
      invariant out == Usable(pieces[..i])
    {
      var p := Trim(pieces[i]);
      assert pieces[..i + 1][..i] == pieces[..i];
      if p != "" {
        out := out + [p];
      }
    }
    assert pieces[..|pieces|] == pieces;
  }
}

module BackendPicks {
  /**
   The picks of one group while its health flags stand still. A position counts members tried since the
   group was made; the member at position p is p modulo the number of members.
   */
  function Cursor(p: nat, n: nat): (idx: nat)
    requires n > 0
    ensures idx < n
  {
    if p < n then p else Cursor(p - n, n)
  }

  function Member(healthy: seq<bool>, p: nat): (idx: nat)
    requires healthy != []
    ensures idx < |healthy|
  {
    Cursor(p, |healthy|)
  }

  predicate Up(healthy: seq<bool>, p: nat)
    requires healthy != []
  {
    healthy[Member(healthy, p)]
  }

  /** The members that are up. */
  function UpSet(healthy: seq<bool>): set<nat> {
    set i: nat | i < |healthy| && healthy[i]
  }

  /** The loop of a pick with `tries` members still to try: the member picked and the next position. */
  function Scan(healthy: seq<bool>, next: nat, tries: nat): (pick: (nat, nat))
    requires healthy != []
    ensures pick.0 < |healthy|
    decreases tries
  {
    if tries == 0 || Up(healthy, next) then (Member(healthy, next), next + 1)
    else Scan(healthy, next + 1, tries - 1)
  }

  function Choose(healthy: seq<bool>, next: nat): (pick: (nat, nat))
    requires healthy != []
    ensures pick.0 < |healthy|
  {
    Scan(healthy, next, |healthy|)
  }

  /** The backend a pick hands out and the position it leaves. */
  function Turn(list: seq<string>, healthy: seq<bool>, next: nat): (turn: (string, nat))
    requires list != [] && |healthy| == |list|
    ensures turn.0 in list
  {
    var (idx, after) := Choose(healthy, next);
    (list[idx], after)
  }

  function Picks(healthy: seq<bool>, next: nat, count: nat): seq<nat>
    requires healthy != []
    decreases count
  {
    if count == 0 then []
    else [Choose(healthy, next).0] + Picks(healthy, Choose(healthy, next).1, count - 1)
  }

  /** The members that are up at the positions from a up to b, in order. */
  function Window(healthy: seq<bool>, a: nat, b: nat): seq<nat>
    requires healthy != []
    decreases b - a
  {
    if a >= b then []
    else (if Up(healthy, a) then [Member(healthy, a)] else []) + Window(healthy, a + 1, b)
  }

  // ---- Arithmetic of positions ----

  lemma MulAtLeast(d: int, n: nat)
    requires d >= 1
    ensures d * n >= n
  {
    assert (d - 1) * n >= 0;
    assert d * n == (d - 1) * n + n;
  }

  lemma MulBelow(d: int, n: nat)
    requires d * n < n
    ensures d <= 0
  {
    if d >= 1 {
      MulAtLeast(d, n);
    }
  }

  lemma ModUnique(x: nat, n: nat, q: nat, r: nat)
    requires r < n && x == q * n + r
    ensures x % n == r
  {
    var d := x / n - q;
    assert d * n == (x / n) * n - q * n;
    assert x == n * (x / n) + x % n;
    assert (-d) * n == -(d * n);
    MulBelow(d, n);
    MulBelow(-d, n);
  }

  /** The cursor is the remainder the code computes. */
  lemma {:induction false} CursorIsRemainder(p: nat, n: nat)
    requires n > 0
    ensures Cursor(p, n) == p % n
  {
    if p < n {
      ModUnique(p, n, 0, p);
    } else {
      CursorIsRemainder(p - n, n);
      var q, r := (p - n) / n, (p - n) % n;
      assert p == (q + 1) * n + r;
      ModUnique(p, n, q + 1, r);
    }
  }

  /** A round later the same member comes up. */
  lemma SameMember(healthy: seq<bool>, p: nat)
    requires healthy != []
    ensures Member(healthy, p + |healthy|) == Member(healthy, p)
    ensures Up(healthy, p + |healthy|) == Up(healthy, p)
  {
  }

  /** Every member comes up within a round. */
  lemma {:induction false} WithinARound(n: nat, a: nat, i: nat) returns (p: nat)
    requires i < n
    ensures a <= p < a + n && Cursor(p, n) == i
  {
    if a < n {
      p := if i >= a then i else i + n;
    } else {
      var before := WithinARound(n, a - n, i);
      p := before + n;
    }
  }

  // ---- One pick ----

  lemma {:induction false} ScanReaches(healthy: seq<bool>, next: nat, tries: nat, p: nat)
    requires healthy != [] && next <= p < next + tries && Up(healthy, p)
    ensures var (idx, after) := Scan(healthy, next, tries);
            && next < after <= p + 1 && idx == Member(healthy, after - 1) && Up(healthy, after - 1)
            && forall q | next <= q < after - 1 :: !Up(healthy, q)
    decreases tries
  {
    hide Member;
    if !Up(healthy, next) {
      ScanReaches(healthy, next + 1, tries - 1, p);
    }
  }

  /** A pick takes the first member in turn that is up, when any is. */
  lemma PickIsNextUp(healthy: seq<bool>, next: nat)
    requires UpSet(healthy) != {}
    ensures var (idx, after) := Choose(healthy, next);
            && next < after <= next + |healthy| && idx == Member(healthy, after - 1) && healthy[idx] && Up(healthy, after - 1)
            && forall q | next <= q < after - 1 :: !Up(healthy, q)
  {
    var i :| i in UpSet(healthy);
    var p := WithinARound(|healthy|, next, i);
    ScanReaches(healthy, next, |healthy|, p);
  }

  lemma {:induction false} ScanMisses(healthy: seq<bool>, next: nat, tries: nat)
    requires healthy != [] && forall q | next <= q < next + tries :: !Up(healthy, q)
    ensures Scan(healthy, next, tries) == (Member(healthy, next + tries), next + tries + 1)
    decreases tries
  {
    if tries > 0 {
      assert !Up(healthy, next);
      ScanMisses(healthy, next + 1, tries - 1);
    }
  }

  /** With every member down a pick still hands one out, and the next pick the one after it. */
  lemma PickWhenAllDown(healthy: seq<bool>, next: nat)
    requires healthy != [] && UpSet(healthy) == {}
    ensures Choose(healthy, next) == (Member(healthy, next), next + |healthy| + 1)
  {
    forall q | next <= q < next + |healthy|
      ensures !Up(healthy, q)
    {
      assert Member(healthy, q) !in UpSet(healthy);
    }
    ScanMisses(healthy, next, |healthy|);
    SameMember(healthy, next);
  }

  predicate SomeUp(healthy: seq<bool>) {
    exists i | 0 <= i < |healthy| :: healthy[i]
  }

  /** The backend is the first in turn that is up, and the counter has moved past it; with every member down it
      is the next in turn, a whole round later. */
  predicate NextInTurn(list: seq<string>, healthy: seq<bool>, start: nat, backend: string, next: nat)
    requires list != [] && |healthy| == |list|
  {
    && start < next && backend == list[(next - 1) % |list|]
    && if SomeUp(healthy) then
         && next <= start + |list| && healthy[(next - 1) % |list|]
         && forall p | start <= p < next - 1 :: !healthy[p % |list|]
       else next == start + |list| + 1
  }

  /** What a turn hands out, by name. */
  lemma TurnIsNext(list: seq<string>, healthy: seq<bool>, start: nat)
    requires list != [] && |healthy| == |list|
    ensures NextInTurn(list, healthy, start, Turn(list, healthy, start).0, Turn(list, healthy, start).1)
  {
    var next := Choose(healthy, start).1;
    hide Choose, Cursor;
    if SomeUp(healthy) {
      var i :| 0 <= i < |healthy| && healthy[i];
      assert i in UpSet(healthy);
      PickIsNextUp(healthy, start);
      forall p | start <= p < next - 1
        ensures !healthy[p % |list|]
      {
        assert !Up(healthy, p);
        CursorIsRemainder(p, |list|);
      }
      CursorIsRemainder(next - 1, |list|);
    } else {
      assert UpSet(healthy) == {};
      PickWhenAllDown(healthy, start);
      SameMember(healthy, start);
      CursorIsRemainder(start + |list|, |list|);
    }
  }

  // ---- A round of picks ----

  lemma {:induction false} PicksAreWindow(healthy: seq<bool>, a: nat, b: nat)
    requires UpSet(healthy) != {} && a <= b
    ensures Picks(healthy, a, |Window(healthy, a, b)|) == Window(healthy, a, b)
    decreases b - a
  {
    if a < b {
      PicksAreWindow(healthy, a + 1, b);
      PickIsNextUp(healthy, a);
      PickIsNextUp(healthy, a + 1);
      hide Choose, UpSet, Member;
      if Up(healthy, a) {
        assert Choose(healthy, a) == (Member(healthy, a), a + 1) by {
          assert !(a < Choose(healthy, a).1 - 1);
        }
      } else {
        SkipDown(healthy, a, |Window(healthy, a + 1, b)|);
      }
    }
  }

  lemma SkipDown(healthy: seq<bool>, a: nat, count: nat)
    requires healthy != [] && UpSet(healthy) != {} && !Up(healthy, a)
    ensures Choose(healthy, a) == Choose(healthy, a + 1)
    ensures Picks(healthy, a, count) == Picks(healthy, a + 1, count)
  {
    hide *;
    PickIsNextUp(healthy, a);
    PickIsNextUp(healthy, a + 1);
    var p, q := Choose(healthy, a).1 - 1, Choose(healthy, a + 1).1 - 1;
    assert a != p;
    assert !(a + 1 <= p < q);
    assert !(a <= q < p);
    assert Choose(healthy, a) == Choose(healthy, a + 1);
    SamePicks(healthy, a, a + 1, count);
  }

  lemma SamePicks(healthy: seq<bool>, a: nat, b: nat, count: nat)
    requires healthy != [] && Choose(healthy, a) == Choose(healthy, b)
    ensures Picks(healthy, a, count) == Picks(healthy, b, count)
  {
    hide Choose;
  }

  lemma {:induction false} WindowSnoc(healthy: seq<bool>, a: nat, b: nat)
    requires healthy != [] && a <= b
    ensures Window(healthy, a, b + 1) == Window(healthy, a, b) + if Up(healthy, b) then [Member(healthy, b)] else []
    decreases b - a
  {
    hide Up, Member;
    if a == b {
      assert Window(healthy, a + 1, b + 1) == [];
    } else {
      WindowSnoc(healthy, a + 1, b);
    }
  }

  function UpBelow(healthy: seq<bool>, b: nat): set<nat>
    requires b <= |healthy|
  {
    set i: nat | i < b && healthy[i]
  }

  lemma AddOne(w: seq<nat>, s: set<nat>, x: nat)
    requires multiset(w) == multiset(s) && x !in s
    ensures multiset(w + [x]) == multiset(s + {x})
  {
    assert multiset(s + {x}) == multiset(s) + multiset{x};
  }

  lemma {:induction false} FirstRound(healthy: seq<bool>, b: nat)
    requires healthy != [] && b <= |healthy|
    ensures multiset(Window(healthy, 0, b)) == multiset(UpBelow(healthy, b))
  {
    if b == 0 {
      assert UpBelow(healthy, 0) == {};
    } else {
      hide *;
      FirstRound(healthy, b - 1);
      WindowSnoc(healthy, 0, b - 1);
      UpBelowSnoc(healthy, b - 1);
      if healthy[b - 1] {
        AddOne(Window(healthy, 0, b - 1), UpBelow(healthy, b - 1), b - 1);
      } else {
        assert Window(healthy, 0, b - 1) + [] == Window(healthy, 0, b - 1);
      }
    }
  }

  lemma UpBelowSnoc(healthy: seq<bool>, b: nat)
    requires b < |healthy|
    ensures b !in UpBelow(healthy, b)
    ensures UpBelow(healthy, b + 1) == if healthy[b] then UpBelow(healthy, b) + {b} else UpBelow(healthy, b)
  {
  }

  /** Any round of positions shows every member that is up exactly once. */
  lemma {:induction false} AnyRound(healthy: seq<bool>, a: nat)
    requires healthy != []
    ensures multiset(Window(healthy, a, a + |healthy|)) == multiset(UpSet(healthy))
    decreases a
  {
    hide Window, Up, Cursor;
    if a == 0 {
      FirstRound(healthy, |healthy|);
      assert UpSet(healthy) == UpBelow(healthy, |healthy|);
    } else {
      AnyRound(healthy, a - 1);
      RoundMoves(healthy, a - 1);
    }
  }

  lemma RoundMoves(healthy: seq<bool>, a: nat)
    requires healthy != []
    ensures multiset(Window(healthy, a + 1, a + |healthy| + 1)) == multiset(Window(healthy, a, a + |healthy|))
  {
    hide *;
    var n := |healthy|;
    SameMember(healthy, a);
    WindowSnoc(healthy, a + 1, a + n);
    WindowCons(healthy, a);
    var first := if Up(healthy, a) then [Member(healthy, a)] else [];
    SwapKeepsMultiset(first, Window(healthy, a + 1, a + n));
  }

  lemma WindowCons(healthy: seq<bool>, a: nat)
    requires healthy != []
    ensures Window(healthy, a, a + |healthy|) ==
            (if Up(healthy, a) then [Member(healthy, a)] else []) + Window(healthy, a + 1, a + |healthy|)
  {
  }

  lemma SwapKeepsMultiset(x: seq<nat>, y: seq<nat>)
    ensures multiset(x + y) == multiset(y + x)
  {
  }

  /** From any position on, as many picks as there are members up hand out each of them exactly once. */
  lemma {:induction false} RoundRobin(healthy: seq<bool>, next: nat)
    requires UpSet(healthy) != {}
    ensures multiset(Picks(healthy, next, |UpSet(healthy)|)) == multiset(UpSet(healthy))
  {
    var w := Window(healthy, next, next + |healthy|);
    AnyRound(healthy, next);
    assert |w| == |multiset(w)| == |UpSet(healthy)|;
    PicksAreWindow(healthy, next, next + |healthy|);
  }

  /** The backends that so many turns in a row hand out. */
  function Turns(list: seq<string>, healthy: seq<bool>, next: nat, count: nat): seq<string>
    requires list != [] && |healthy| == |list|
    decreases count
  {
    if count == 0 then []
    else [Turn(list, healthy, next).0] + Turns(list, healthy, Turn(list, healthy, next).1, count - 1)
  }

  /** The members at these indexes. */
  predicate At(list: seq<string>, picks: seq<nat>, names: seq<string>) {
    |names| == |picks| && forall k | 0 <= k < |picks| :: picks[k] < |list| && names[k] == list[picks[k]]
  }

  lemma {:induction false} TurnsArePicks(list: seq<string>, healthy: seq<bool>, next: nat, count: nat)
    requires list != [] && |healthy| == |list|
    ensures At(list, Picks(healthy, next, count), Turns(list, healthy, next, count))
    decreases count
  {
    hide Choose;
    if count > 0 {
      TurnsArePicks(list, healthy, Choose(healthy, next).1, count - 1);
    }
  }

  /** As many turns in a row as there are members up name each of those once. */
  lemma EachBackendOnce(list: seq<string>, healthy: seq<bool>, next: nat) returns (picks: seq<nat>)
    requires |healthy| == |list| && UpSet(healthy) != {}
    ensures multiset(picks) == multiset(UpSet(healthy))
    ensures At(list, picks, Turns(list, healthy, next, |UpSet(healthy)|))
  {
    picks := Picks(healthy, next, |UpSet(healthy)|);
    RoundRobin(healthy, next);
    TurnsArePicks(list, healthy, next, |UpSet(healthy)|);
  }

  // ---- Health from probes ----

  const MAX_FAILED := 3

  datatype Health = Health(healthy: bool, fails: nat)

  function Probed(h: Health, ok: bool): Health {
    if ok then Health(true, 0) else Health(h.healthy && h.fails + 1 < MAX_FAILED, h.fails + 1)
  }

  /** A new member counts as healthy until its probes say otherwise. */
  function HealthAfter(probes: seq<bool>): Health {
    if probes == [] then Health(true, 0) else Probed(HealthAfter(probes[..|probes| - 1]), probes[|probes| - 1])
  }

  lemma {:induction false} FailsAreTrailing(probes: seq<bool>, k: nat)
    requires k <= |probes|
    ensures HealthAfter(probes).fails >= k <==> forall i | |probes| - k <= i < |probes| :: !probes[i]
    ensures HealthAfter(probes).healthy <==> HealthAfter(probes).fails < MAX_FAILED
    ensures HealthAfter(probes).fails <= |probes|
  {
    if probes != [] {
      var n := |probes| - 1;
      FailsAreTrailing(probes[..n], if k == 0 then 0 else k - 1);
    }
  }

  /** Over any history of probes a member is down exactly when its last three probes all failed. */
  lemma DownIff(probes: seq<bool>)
    ensures !HealthAfter(probes).healthy <==>
            |probes| >= 3 && forall i | |probes| - 3 <= i < |probes| :: !probes[i]
  {
    FailsAreTrailing(probes, 0);
    if |probes| >= MAX_FAILED {
      FailsAreTrailing(probes, MAX_FAILED);
    }
  }
}

module Balancer {
  import opened BackendList
  import opened BackendPicks

  const MAX_GROUPS := 256
  const MAX_MEMBERS := 32

  class BackendGroup {
    const list: seq<string>
    const healthy: array<bool>
    const fails: array<nat>
    var next: nat
    var lastUsed: int
    // History: what every probe of every member said.
    ghost var probes: seq<seq<bool>>

    ghost predicate Valid()
      reads `probes, healthy, fails
    {
      && healthy.Length == fails.Length == |probes| == |list|
      && forall i | 0 <= i < |list| :: Health(healthy[i], fails[i]) == HealthAfter(probes[i])
    }

    constructor (list: seq<string>, now: int)
      ensures Valid() && this.list == list && lastUsed == now && next == 0
      ensures fresh(healthy) && fresh(fails) && probes == seq(|list|, i => [])
      ensures forall i | 0 <= i < |list| :: healthy[i]
    {
      this.list := list;
      healthy := new bool[|list|](i => true);
      fails := new nat[|list|](i => 0);
      next, lastUsed := 0, now;
      probes := seq(|list|, i => []);
    }

    /** The next member in turn; flags and history are left alone. */
    method Pick(now: int) returns (backend: string)
      requires Valid()
      modifies `lastUsed, `next
      ensures Valid() && lastUsed == now
      ensures list == [] ==> backend == "" && next == old(next)
      ensures list != [] ==> (backend, next) == Turn(list, healthy[..], old(next))
      ensures list != [] ==> NextInTurn(list, healthy[..], old(next), backend, next)
    {
      hide Cursor, HealthAfter, NextInTurn;
      lastUsed := now;
      var n := |list|;
      if n == 0 {
        return "";
      }
      ghost var flags, start := healthy[..], next;
      TurnIsNext(list, flags, start);
      for i := 0 to n
        invariant next == start + i && healthy[..] == flags && lastUsed == now
        invariant Scan(flags, next, n - i) == Choose(flags, start)
      {
        CursorIsRemainder(next, n);
        var idx := next % n;
        next := next + 1;
        if healthy[idx] {
          return list[idx];
        }
      }
      CursorIsRemainder(next, n);
      var idx := next % n;
      next := next + 1;
      return list[idx];
    }

    /** One pass of probes; `answers` is what each member's probe said. */
    method Check(answers: seq<bool>)
      requires Valid() && |answers| == |list|
      modifies healthy, fails, `probes
      ensures Valid()
      ensures |old(probes)| == |list| && forall j | 0 <= j < |list| :: probes[j] == old(probes)[j] + [answers[j]]
    {
      for i := 0 to |list|
        invariant Valid()
        invariant forall j | 0 <= j < |list| ::
            probes[j] == if j < i then old(probes)[j] + [answers[j]] else old(probes)[j]
      {
        if answers[i] {
          healthy[i], fails[i] := true, 0;
        } else {
          fails[i] := fails[i] + 1;
          if fails[i] >= MAX_FAILED {
            healthy[i] := false;
          }
        }
        probes := probes[i := probes[i] + [answers[i]]];
        assert probes[i][..|probes[i]| - 1] == old(probes)[i];
        FailsAreTrailing(old(probes)[i], 0);
      }
    }
  }

  type Groups = map<string, BackendGroup>

  /** No group was used before this one. */
  ghost predicate Oldest(groups: Groups, key: string)
    reads (set k | k in groups :: groups[k])`lastUsed
  {
    key in groups && forall k | k in groups :: groups[key].lastUsed <= groups[k].lastUsed
  }

  /** One map is the other without its least recently used group. */
  ghost predicate LeastRecent(before: Groups, after: Groups)
    reads (set k | k in before :: before[k])`lastUsed
  {
    exists oldest :: Oldest(before, oldest) && after == before - {oldest}
  }

  /** One map is the other with a key added, at the cost of the least recent group when it was full. */
  ghost predicate Inserted(before: Groups, after: Groups, key: string)
    reads (set k | k in before :: before[k])`lastUsed
  {
    && key in after
    && (|before| < MAX_GROUPS ==> after == before[key := after[key]])
    && (|before| == MAX_GROUPS ==>
          exists oldest :: Oldest(before, oldest) && after == (before - {oldest})[key := after[key]])
  }

  /** Among the keys seen so far this one was used first; the empty string before any is seen. */
  ghost predicate OldestSeen(times: map<string, int>, seen: set<string>, key: string, oldest: int) {
    && "" !in times && seen <= times.Keys
    && (if seen == {} then key == "" else key in seen && oldest == times[key])
    && forall k | k in seen :: oldest <= times[k]
  }

  lemma NoneSeen(times: map<string, int>, oldest: int)
    requires "" !in times
    ensures OldestSeen(times, {}, "", oldest)
  {
  }

  lemma SeeOne(times: map<string, int>, seen: set<string>, key: string, oldest: int, k: string)
    requires OldestSeen(times, seen, key, oldest) && k in times
    ensures if key == "" || times[k] < oldest then OldestSeen(times, seen + {k}, k, times[k])
            else OldestSeen(times, seen + {k}, key, oldest)
  {
  }

  lemma AllSeen(times: map<string, int>, key: string, oldest: int)
    requires OldestSeen(times, times.Keys, key, oldest) && times.Keys != {}
    ensures key in times && forall k | k in times :: times[key] <= times[k]
  {
  }

  lemma OldestFound(groups: Groups, times: map<string, int>, key: string)
    requires times.Keys == groups.Keys && forall k | k in groups :: times[k] == groups[k].lastUsed
    requires key in times && forall k | k in times :: times[key] <= times[k]
    ensures Oldest(groups, key)
  {
  }

  lemma DropOldest(groups: Groups, key: string)
    requires Oldest(groups, key)
    ensures LeastRecent(groups, groups - {key})
  {
  }

  lemma NewIsProper(key: string, g: BackendGroup)
    requires g.Valid() && Addresses(g.list) && 2 <= |g.list| <= MAX_MEMBERS && key == Join(g.list)
    ensures Proper(key, g)
  {
  }

  lemma RoomTaken(before: Groups, room: Groups, key: string, g: BackendGroup)
    requires |before| < MAX_GROUPS ==> room == before
    requires |before| == MAX_GROUPS ==> LeastRecent(before, room)
    ensures Inserted(before, room[key := g], key)
  {
    if |before| == MAX_GROUPS {
      var oldest :| Oldest(before, oldest) && room == before - {oldest};
      assert room[key := g] == (before - {oldest})[key := room[key := g][key]];
    }
  }

  /** What every group in the pool is: two or more addresses under the key they join to. */
  ghost predicate Proper(key: string, g: BackendGroup)
    reads g`probes, g.healthy, g.fails
  {
    g.Valid() && Addresses(g.list) && 2 <= |g.list| <= MAX_MEMBERS && key == Join(g.list)
  }

  /** The parsed list of a target with more than one usable address, cut to what a group may hold. */
  function Members(target: string): seq<string> {
    var list := Backends(target);
    if |list| > MAX_MEMBERS then list[..MAX_MEMBERS] else list
  }

  /** What a target with a single usable address stands for: itself, untouched, when it names no list. */
  function Only(target: string): string
    requires |Backends(target)| == 1
  {
    if SEP in target then Backends(target)[0] else target
  }

  class BackendPool {
    var groups: map<string, BackendGroup>

    ghost predicate Valid()
      reads `groups
      reads (set k | k in groups :: groups[k])`probes
      reads set k | k in groups :: groups[k].healthy
      reads set k | k in groups :: groups[k].fails
    {
      |groups| <= MAX_GROUPS && forall k | k in groups :: Proper(k, groups[k])
    }

    constructor ()
      ensures Valid() && groups == map[]
    {
      groups := map[];
    }

    /** The scan for the oldest group. The empty string serves as "none seen yet", which is sound because
        no key is empty. */
    method OldestKey() returns (oldestKey: string)
      requires |groups| > 0 && "" !in groups
      ensures Oldest(groups, oldestKey)
    {
      hide *;
      assert groups.Keys != {} by { assert |groups.Keys| > 0; }
      ghost var times := map k | k in groups :: groups[k].lastUsed;
      oldestKey := "";
      var oldest := 0;
      var keys := groups.Keys;
      assert keys - keys == {};
      NoneSeen(times, oldest);
      while keys != {}
        invariant keys <= groups.Keys
        invariant OldestSeen(times, groups.Keys - keys, oldestKey, oldest)
        decreases keys
      {
        var key :| key in keys;
        var used := groups[key].lastUsed;
        SeeOne(times, groups.Keys - keys, oldestKey, oldest, key);
        if oldestKey == "" || used < oldest {
          oldestKey, oldest := key, used;
        }
        assert groups.Keys - (keys - {key}) == groups.Keys - keys + {key};
        keys := keys - {key};
      }
      assert groups.Keys - keys == times.Keys;
      AllSeen(times, oldestKey, oldest);
      OldestFound(groups, times, oldestKey);
    }

    /** Drops a group that no other was used before. */
    method EvictOldest()
      requires Valid() && |groups| > 0
      modifies `groups
      ensures LeastRecent(old(groups), groups)
    {
      KeysAreNotEmpty();
      var oldestKey := OldestKey();
      hide *;
      DropOldest(groups, oldestKey);
      groups := groups - {oldestKey};
    }

    lemma KeysAreNotEmpty()
      requires Valid()
      ensures "" !in groups
    {
      if "" in groups {
        assert Proper("", groups[""]);
        JoinHolds(groups[""].list);
      }
    }

    /** Room for one more group; only a full pool loses one. */
    method MakeRoom()
      requires Valid()
      modifies `groups
      ensures |groups| < MAX_GROUPS && Valid()
      ensures |old(groups)| < MAX_GROUPS ==> groups == old(groups)
      ensures |old(groups)| == MAX_GROUPS ==> LeastRecent(old(groups), groups)
    {
      hide Proper;
      if |groups| >= MAX_GROUPS {
        EvictOldest();
        assert forall k | k in groups :: k in old(groups) && groups[k] == old(groups)[k];
      }
    }

    /** The group of a parsed list, made when the list is new. */
    method Group(key: string, list: seq<string>, now: int) returns (g: BackendGroup)
      requires Valid() && Addresses(list) && 2 <= |list| <= MAX_MEMBERS && key == Join(list)
      modifies `groups, (set k | k in groups :: groups[k])`lastUsed
      ensures Valid() && key in groups && g == groups[key] && g.list == list && g.lastUsed == now
      ensures |groups| <= 256
      ensures key in old(groups) ==> groups == old(groups)
      ensures key !in old(groups) ==> fresh(g) && g.next == 0 && forall i | 0 <= i < |list| :: g.healthy[i]
      ensures key !in old(groups) ==> Inserted(old(groups), groups, key)
    {
      if key in groups {
        g := groups[key];
        assert Proper(key, g);
        SameKeySameList(g.list, list);
        g.lastUsed := now;
      } else {
        g := NewGroup(key, list, now);
      }
    }

    method NewGroup(key: string, list: seq<string>, now: int) returns (g: BackendGroup)
      requires Valid() && Addresses(list) && 2 <= |list| <= MAX_MEMBERS && key == Join(list) && key !in groups
      modifies `groups
      ensures Valid() && key in groups && g == groups[key] && g.list == list && g.lastUsed == now
      ensures fresh(g) && g.next == 0 && forall i | 0 <= i < |list| :: g.healthy[i]
      ensures Inserted(old(groups), groups, key)
    {
      hide HealthAfter, Join, Addresses, LeastRecent, Inserted, Oldest, Proper;
      MakeRoom();
      ghost var room := groups;
      g := new BackendGroup(list, now);
      NewIsProper(key, g);
      forall k | k in room
        ensures Proper(k, room[k])
      {
      }
      groups := groups[key := g];
      RoomTaken(old(groups), room, key, g);
    }

    /** The next member in turn of the list's group, whose other state is left alone. */
    method Balance(list: seq<string>, now: int) returns (backend: string)
      requires Valid() && Addresses(list) && 2 <= |list| <= MAX_MEMBERS
      modifies `groups, (set k | k in groups :: groups[k])`lastUsed, (set k | k in groups :: groups[k])`next
      ensures Valid() && Join(list) in groups
      ensures var g := groups[Join(list)]; g.list == list && g.lastUsed == now
      ensures Join(list) in old(groups) ==> groups == old(groups)
      ensures Join(list) in old(groups) ==>
                var g := groups[Join(list)];
                && (backend, g.next) == Turn(list, g.healthy[..], old(g.next))
                && NextInTurn(list, g.healthy[..], old(g.next), backend, g.next)
      ensures Join(list) !in old(groups) ==> Inserted(old(groups), groups, Join(list))
      ensures Join(list) !in old(groups) ==> backend == list[0] && groups[Join(list)].next == 1
    {
      hide *;
      var g := Group(Join(list), list, now);
      ValidMeans(this, Join(list));
      ghost var turn := g.next;
      backend := g.Pick(now);
      if turn == 0 && g.healthy[0] {
        FirstTurn(list, g.healthy[..]);
      }
    }

    /** The backend to dial: the target itself or its only address when there is nothing to balance, else
        the next member in turn of its list's group. */
    method Pick(target: string, now: int) returns (backend: string)
      requires Valid()
      modifies `groups, (set k | k in groups :: groups[k])`lastUsed, (set k | k in groups :: groups[k])`next
      ensures Valid()
      ensures |Members(target)| == if |Backends(target)| < 32 then |Backends(target)| else 32
      ensures Members(target) <= Backends(target)
      ensures |Backends(target)| == 0 ==> backend == target && groups == old(groups)
      ensures |Backends(target)| == 1 ==> backend == Only(target) && groups == old(groups)
      ensures |Backends(target)| >= 2 ==> backend in Members(target) && Join(Members(target)) in groups
      ensures |Backends(target)| >= 2 ==> groups[Join(Members(target))].list == Members(target)
      ensures |Backends(target)| >= 2 && Join(Members(target)) in old(groups) ==> groups == old(groups)
      ensures |Backends(target)| >= 2 && Join(Members(target)) in old(groups) ==>
                var g := groups[Join(Members(target))];
                && (backend, g.next) == Turn(Members(target), g.healthy[..], old(g.next))
                && NextInTurn(Members(target), g.healthy[..], old(g.next), backend, g.next)
      ensures |Backends(target)| >= 2 && Join(Members(target)) !in old(groups) ==>
                && Inserted(old(groups), groups, Join(Members(target)))
                && backend == Members(target)[0] && groups[Join(Members(target))].next == 1
    {
      hide *;
      OneAddress(target);
      MembersOf(target);
      if SEP !in target {
        return target;
      }
      var list := SplitBackends(target);
      if |list| == 0 {
        return target;
      } else if |list| == 1 {
        return list[0];
      } else if |list| > MAX_MEMBERS {
        list := list[..MAX_MEMBERS];
      }
      backend := Balance(list, now);
    }
  }

  lemma OneAddress(target: string)
    ensures SEP !in target ==> |Backends(target)| <= 1
    ensures |Backends(target)| == 1 ==> Only(target) == if SEP in target then Backends(target)[0] else target
  {
    if SEP !in target {
      CutPiece(target, "");
      assert Usable([]) == [];
      assert Cut(target)[..0] == [];
    }
  }

  lemma MembersOf(target: string)
    ensures Addresses(Members(target)) && |Members(target)| <= MAX_MEMBERS
    ensures |Backends(target)| >= 2 ==> |Members(target)| >= 2
    ensures |Members(target)| == if |Backends(target)| < 32 then |Backends(target)| else 32
    ensures Members(target) <= Backends(target)
    ensures |Backends(target)| <= MAX_MEMBERS ==> Members(target) == Backends(target)
    ensures |Backends(target)| > MAX_MEMBERS ==> Members(target) == Backends(target)[..MAX_MEMBERS]
  {
    BackendsAreAddresses(target);
  }

  lemma ValidMeans(pool: BackendPool, key: string)
    requires pool.Valid() && key in pool.groups
    ensures Proper(key, pool.groups[key]) && pool.groups[key].Valid()
    ensures 2 <= |pool.groups[key].list| == pool.groups[key].healthy.Length
  {
    assert Proper(key, pool.groups[key]);
  }

  lemma FirstTurn(list: seq<string>, healthy: seq<bool>)
    requires list != [] && |healthy| == |list| && healthy[0]
    ensures Choose(healthy, 0) == (0, 1) && Turn(list, healthy, 0) == (list[0], 1)
  {
  }

  lemma SameKeySameList(x: seq<string>, y: seq<string>)
    requires x != [] && y != [] && Addresses(x) && Addresses(y) && Join(x) == Join(y)
    ensures x == y
  {
    KeyRoundTrip(x);
    KeyRoundTrip(y);
  }
}
