/** What thread ids mean: at which message the climb along first parents settles, and when
    two messages get the same id. */
module ThreadIds {
  import opened Wrappers
  import opened HeaderThreads

  // ---- where the climb settles -----------------------------------------------------

  /** The message n first-parent links above u. */
  function Above(parents: Links, u: nat, n: nat): Option<nat>
    decreases n
  {
    if n == 0 then Some(u)
    else match FirstParent(parents, u) case Some(p) => Above(parents, p, n - 1) case None => None
  }

  /** v is a first-parent ancestor of u. */
  ghost predicate ClimbsTo(parents: Links, u: nat, v: nat) {
    exists n: nat :: n > 0 && Above(parents, u, n) == Some(v)
  }

  /** u is its own first-parent ancestor. */
  ghost predicate OnCycle(parents: Links, u: nat) {
    ClimbsTo(parents, u, u)
  }

  lemma {:induction false} AboveAdds(parents: Links, u: nat, m: nat, n: nat)
    requires Above(parents, u, m).Some?
    ensures Above(parents, u, m + n) == Above(parents, Above(parents, u, m).value, n)
    decreases m
  {
    if m == 0 {
    } else {
      AboveAdds(parents, FirstParent(parents, u).value, m - 1, n);
    }
  }

  /** A visited message that is never met again changes nothing. */
  lemma {:induction false} UnmetIrrelevant(parents: Links, c: nat, visited: set<nat>, u: nat)
    requires forall n: nat :: Above(parents, c, n) != Some(u)
    ensures Settle(parents, c, visited + {u}) == Settle(parents, c, visited)
    decreases parents.Keys - visited
  {
    assert Above(parents, c, 0) == Some(c);
    if c in visited || FirstParent(parents, c).None? {
    } else {
      var p := FirstParent(parents, c).value;
      forall n: nat ensures Above(parents, p, n) != Some(u) {
        assert Above(parents, p, n) == Above(parents, c, n + 1);
      }
      UnmetIrrelevant(parents, p, visited + {c}, u);
      assert visited + {u} + {c} == visited + {c} + {u};
    }
  }

  /** A climb that meets u again, and nothing visited before it, stops at u. */
  lemma {:induction false} ClimbStopsAt(parents: Links, c: nat, visited: set<nat>, u: nat, n: nat)
    requires Above(parents, c, n) == Some(u) && u in visited
    requires forall i: nat :: i < n ==> Above(parents, c, i).Some? && Above(parents, c, i).value !in visited
    requires forall i: nat :: i < n ==> Above(parents, c, i) != Some(u)
    ensures Settle(parents, c, visited) == u
    decreases n
  {
    if n == 0 {
    } else {
      assert Above(parents, c, 0) == Some(c);
      var p := FirstParent(parents, c).value;
      forall i: nat | i < n - 1
        ensures Above(parents, p, i).Some? && Above(parents, p, i).value !in visited + {c}
        ensures Above(parents, p, i) != Some(u)
      {
        assert Above(parents, p, i) == Above(parents, c, i + 1);
        if Above(parents, c, i + 1) == Some(c) {
          AboveAdds(parents, c, i + 1, n - (i + 1));
          assert false;
        }
      }
      ClimbStopsAt(parents, p, visited + {c}, u, n - 1);
    }
  }

  lemma OnCycleSettlesAtItself(parents: Links, u: nat)
    requires OnCycle(parents, u)
    ensures Settle(parents, u, {}) == u
  {
    var n := FirstReturn(parents, u);
    var p := FirstParent(parents, u).value;
    forall i: nat | i < n - 1
      ensures Above(parents, p, i).Some? && Above(parents, p, i).value !in {u}
    {
      assert Above(parents, p, i) == Above(parents, u, i + 1);
      AboveSome(parents, u, i + 1, n);
    }
    ClimbStopsAt(parents, p, {u}, u, n - 1);
    assert {} + {u} == {u};
  }

  lemma {:induction false} AboveSome(parents: Links, u: nat, m: nat, n: nat)
    requires m <= n && Above(parents, u, n).Some?
    ensures Above(parents, u, m).Some?
    decreases m
  {
    if m == 0 {
    } else {
      AboveSome(parents, FirstParent(parents, u).value, m - 1, n - 1);
    }
  }

  lemma FirstReturn(parents: Links, u: nat) returns (n: nat)
    requires OnCycle(parents, u)
    ensures n > 0 && Above(parents, u, n) == Some(u)
    ensures forall i: nat :: 0 < i < n ==> Above(parents, u, i) != Some(u)
  {
    var bound: nat :| bound > 0 && Above(parents, u, bound) == Some(u);
    n := 1;
    while Above(parents, u, n) != Some(u)
      invariant 0 < n <= bound
      invariant forall i: nat :: 0 < i < n ==> Above(parents, u, i) != Some(u)
      decreases bound - n
    {
      n := n + 1;
    }
  }

  /** Exactly when a reply and its first parent settle at the same message: unless they
      sit on one cycle of references, where every member settles at itself. */
  lemma SettlesWithParent(parents: Links, u: nat)
    requires FirstParent(parents, u).Some?
    ensures var p := FirstParent(parents, u).value;
      Settle(parents, u, {}) == Settle(parents, p, {}) <==> !OnCycle(parents, u) || p == u
  {
    var p := FirstParent(parents, u).value;
    if OnCycle(parents, u) {
      OnCycleSettlesAtItself(parents, u);
      var n: nat :| n > 0 && Above(parents, u, n) == Some(u);
      AboveAdds(parents, p, n - 1, 1);
      assert Above(parents, u, 1) == Above(parents, p, 0);
      assert Above(parents, p, n) == Some(p);
      OnCycleSettlesAtItself(parents, p);
    } else {
      forall n: nat ensures Above(parents, p, n) != Some(u) {
        assert Above(parents, p, n) == Above(parents, u, n + 1);
      }
      UnmetIrrelevant(parents, p, {}, u);
    }
  }

  /** s is the first message from u upwards that has no parent or lies on a cycle. */
  ghost predicate Anchored(parents: Links, u: nat, s: nat, n: nat) {
    && Above(parents, u, n) == Some(s)
    && (FirstParent(parents, s).None? || OnCycle(parents, s))
    && forall i: nat :: i < n ==> Above(parents, u, i).Some? && !OnCycle(parents, Above(parents, u, i).value)
  }

  /** The climb settles exactly there. */
  lemma SettleExact(parents: Links, u: nat, s: nat)
    ensures Settle(parents, u, {}) == s <==> exists n: nat :: Anchored(parents, u, s, n)
  {
    var n := AnchorFrom(parents, u, {});
    if m: nat :| Anchored(parents, u, s, m) {
      AnchorsAgree(parents, u, Settle(parents, u, {}), n, s, m);
      AnchorsAgree(parents, u, s, m, Settle(parents, u, {}), n);
    }
  }

  lemma AnchorsAgree(parents: Links, u: nat, s: nat, n: nat, t: nat, m: nat)
    requires Anchored(parents, u, s, n) && Anchored(parents, u, t, m)
    ensures n >= m
  {
    if n < m {
      assert FirstParent(parents, s).None?;
      AboveSome(parents, u, n + 1, m);
      AboveAdds(parents, u, n, 1);
    }
  }

  /** The messages below u met so far are off every cycle, so the climb comes to an end. */
  lemma {:induction false} AnchorFrom(parents: Links, u: nat, below: set<nat>) returns (n: nat)
    requires forall x :: x in below ==> ClimbsTo(parents, x, u)
    ensures Anchored(parents, u, Settle(parents, u, {}), n)
    decreases parents.Keys - below
  {
    if OnCycle(parents, u) {
      OnCycleSettlesAtItself(parents, u);
      n := 0;
    } else if FirstParent(parents, u).None? {
      n := 0;
    } else {
      var p := FirstParent(parents, u).value;
      assert Above(parents, u, 1) == Above(parents, p, 0);
      forall x | x in below + {u} ensures ClimbsTo(parents, x, p) {
        if x == u {
          assert Above(parents, u, 1) == Some(p);
        } else {
          var k: nat :| k > 0 && Above(parents, x, k) == Some(u);
          AboveAdds(parents, x, k, 1);
          assert Above(parents, x, k + 1) == Some(p);
        }
      }
      assert u in parents.Keys && u !in below;
      var m := AnchorFrom(parents, p, below + {u});
      SettlesWithParent(parents, u);
      n := m + 1;
      forall i: nat | i < n ensures Above(parents, u, i).Some? && !OnCycle(parents, Above(parents, u, i).value) {
        if i > 0 {
          assert Above(parents, u, i) == Above(parents, p, i - 1);
        }
      }
    }
  }

  // ---- when two messages get the same id --------------------------------------------

  ghost predicate DistinctUids(messages: seq<Message>) {
    forall i, j :: 0 <= i < j < |messages| ==> messages[i].uid != messages[j].uid
  }

  function Parents(messages: seq<Message>): Links {
    ParentLinks(messages, Refs(messages))
  }

  lemma {:induction false} OwnerBears(messages: seq<Message>, id: string)
    requires DistinctUids(messages) && Owner(messages, id).Some?
    ensures MessageIdAt(messages, Owner(messages, id).value) == Some(id)
  {
    var n := |messages| - 1;
    if messages[n].messageId == Some(id) {
    } else {
      OwnerBears(messages[..n], id);
      OwnerKnown(messages[..n], id);
    }
  }

  /** Some message names this one as a parent. */
  ghost predicate Named(messages: seq<Message>, u: nat) {
    exists c :: u in Next(Parents(messages), c)
  }

  /** Its Message-ID then resolves to it and to no other. */
  lemma NamedOwns(messages: seq<Message>, u: nat)
    requires DistinctUids(messages) && Named(messages, u)
    ensures MessageIdAt(messages, u).Some? && Owner(messages, MessageIdAt(messages, u).value) == Some(u)
  {
    TablesMeanLinks(messages, {});
    var c :| u in Next(Parents(messages), c);
    var id :| Names(messages, c, id) && Resolves(messages, id, u);
    OwnerResolves(messages, id);
    OwnerBears(messages, id);
  }

  /** The message names a parent or is named as one. */
  ghost predicate InThread(messages: seq<Message>, u: nat) {
    FirstParent(Parents(messages), u).Some? || Named(messages, u)
  }

  lemma {:induction false} SettleNamed(messages: seq<Message>, u: nat, visited: set<nat>)
    ensures Settle(Parents(messages), u, visited) == u || Named(messages, Settle(Parents(messages), u, visited))
    decreases Parents(messages).Keys - visited
  {
    var parents := Parents(messages);
    if u in visited || FirstParent(parents, u).None? {
    } else {
      var p := FirstParent(parents, u).value;
      assert p in Next(parents, u);
      SettleNamed(messages, p, visited + {u});
    }
  }

  lemma ThreadSettlesNamed(messages: seq<Message>, u: nat)
    requires InThread(messages, u)
    ensures Named(messages, Settle(Parents(messages), u, {}))
  {
    var parents := Parents(messages);
    SettleNamed(messages, u, {});
    if FirstParent(parents, u).Some? {
      var p := FirstParent(parents, u).value;
      assert p in Next(parents, u);
      SettleNamed(messages, p, {} + {u});
    }
  }

  /** Two messages that take part in threads get the same id if and only if the climbs from
      them settle at the same message. */
  lemma SameIdExact(messages: seq<Message>, u: nat, v: nat)
    requires DistinctUids(messages) && InThread(messages, u) && InThread(messages, v)
    ensures var parents := Parents(messages);
      ThreadId(messages, parents, u) == ThreadId(messages, parents, v) <==>
        Settle(parents, u, {}) == Settle(parents, v, {})
  {
    ThreadSettlesNamed(messages, u);
    ThreadSettlesNamed(messages, v);
    NamedOwns(messages, Settle(Parents(messages), u, {}));
    NamedOwns(messages, Settle(Parents(messages), v, {}));
  }

  /** A reply gets the id of its first parent unless the two lie on one cycle. */
  lemma SameIdAsFirstParent(messages: seq<Message>, u: nat)
    requires DistinctUids(messages) && FirstParent(Parents(messages), u).Some?
    ensures var parents := Parents(messages);
      var p := FirstParent(parents, u).value;
      ThreadId(messages, parents, u) == ThreadId(messages, parents, p) <==> !OnCycle(parents, u) || p == u
  {
    var p := FirstParent(Parents(messages), u).value;
    assert p in Next(Parents(messages), u);
    SameIdExact(messages, u, p);
    SettlesWithParent(Parents(messages), u);
  }

  /** A reply off every cycle gets the id of another of its parents only if that parent
      settles where the first one does. */
  lemma SameIdAsOtherParent(messages: seq<Message>, u: nat, p: nat)
    requires DistinctUids(messages) && p in Next(Parents(messages), u) && !OnCycle(Parents(messages), u)
    ensures var parents := Parents(messages);
      ThreadId(messages, parents, u) == ThreadId(messages, parents, p) <==>
        Settle(parents, FirstParent(parents, u).value, {}) == Settle(parents, p, {})
  {
    SameIdExact(messages, u, p);
    SettlesWithParent(Parents(messages), u);
  }

  // ---- a reply whose other parent has another id -------------------------------------

  function IdOf(c: char): string {
    ['<', c, '>']
  }

  lemma OneId(c: char)
    requires c != '<' && c != '>'
    ensures MessageIds(IdOf(c)) == [IdOf(c)]
  {
    var value := IdOf(c);
    assert BracketedIds(value, 0) == [] && BracketedIds(value, 1) == [] && BracketedIds(value, 2) == [];
    assert OpenBracket(value, 1) == Some(0) && OpenBracket(value, 2) == Some(0);
    assert value[0..3] == value;
  }

  lemma JoinTwo(first: seq<string>, second: seq<string>, a: string, b: string)
    requires first == [a] && second == [b] && a != b
    ensures Dedup(first + second) == [a, b]
  {
    assert first + second == [a, b];
    assert [a, b][..1] == [a] && [a][..0] == [];
    assert Dedup([a]) == [a];
  }

  lemma AllIdsOne(value: string)
    ensures AllIds([value]) == MessageIds(value)
  {
    assert [value][..0] == [];
    assert AllIds([]) == [];
  }

  /** References name one message and In-Reply-To another. */
  lemma ReplyNamesBoth(y: Message, a: string, b: string)
    requires MessageIds(a) == [a] && MessageIds(b) == [b] && a != b
    requires y.references == [a] && y.inReplyTo == Some(b)
    ensures ParentIds(y) == [a, b]
  {
    AllIdsOne(a);
    JoinTwo(AllIds(y.references), MessageIds(b), a, b);
  }

  lemma RefsOfThree(r: Message, m: Message, y: Message)
    requires ParentIds(r) == ParentIds(m) == [] && |ParentIds(y)| == 2
    ensures Refs([r, m, y]) == [Ref(y.uid, ParentIds(y)[0]), Ref(y.uid, ParentIds(y)[1])]
  {
    var messages := [r, m, y];
    assert messages[..0] == [] && messages[..3] == messages;
    RefsNext(messages, 0);
    RefsNext(messages, 1);
    RefsNext(messages, 2);
  }

  lemma OwnersOfThree(r: Message, m: Message, y: Message, a: string, b: string)
    requires r.messageId == Some(a) && m.messageId == Some(b) && y.messageId == None && a != b
    ensures Owner([r, m, y], a) == Some(r.uid) && Owner([r, m, y], b) == Some(m.uid)
  {
    assert [r, m, y][..2] == [r, m] && [r, m][..1] == [r];
    assert Owner([r], a) == Some(r.uid) && Owner([r, m], a) == Some(r.uid) && Owner([r, m], b) == Some(m.uid);
  }

  lemma ParentsOfThree(r: Message, m: Message, y: Message, a: string, b: string)
    requires r.messageId == Some(a) && m.messageId == Some(b) && y.messageId == None && a != b
    requires ParentIds(r) == ParentIds(m) == [] && ParentIds(y) == [a, b]
    ensures Parents([r, m, y]) == map[y.uid := [r.uid, m.uid]]
  {
    var messages, first, second := [r, m, y], Ref(y.uid, a), Ref(y.uid, b);
    RefsOfThree(r, m, y);
    OwnersOfThree(r, m, y, a, b);
    TablesNext(messages, {}, [], first);
    assert [] + [first] == [first] && [first] + [second] == [first, second];
    TablesNext(messages, {}, [first], second);
    PushTwice(y.uid, r.uid, m.uid);
  }

  lemma PushTwice(u: nat, p: nat, q: nat)
    ensures Push(Push(map[], u, p), u, q) == map[u := [p, q]]
  {
    assert [] + [p] == [p] && [p] + [q] == [p, q];
  }

  lemma OffCycle(parents: Links, u: nat)
    requires FirstParent(parents, u).None? ||
      (FirstParent(parents, u).value != u && FirstParent(parents, FirstParent(parents, u).value).None?)
    ensures !OnCycle(parents, u)
  {
    forall n: nat | n > 0 ensures Above(parents, u, n) != Some(u) {
      if FirstParent(parents, u).Some? {
        assert Above(parents, u, n) == Above(parents, FirstParent(parents, u).value, n - 1);
      }
    }
  }

  lemma SettleOfThree(r: nat, m: nat, y: nat)
    requires r != m && r != y && m != y
    ensures var parents := map[y := [r, m]];
      && Settle(parents, y, {}) == r && Settle(parents, m, {}) == m && !OnCycle(parents, m) && !OnCycle(parents, y)
  {
    var parents := map[y := [r, m]];
    assert Next(parents, r) == [] && Next(parents, m) == [];
    assert Settle(parents, r, {} + {y}) == r;
    OffCycle(parents, m);
    OffCycle(parents, y);
  }

  lemma IdsOfThree(r: Message, m: Message, y: Message, a: string, b: string)
    requires r.messageId == Some(a) && m.messageId == Some(b) && y.messageId == None && a != b
    requires r.uid != m.uid && r.uid != y.uid && m.uid != y.uid
    ensures MessageIdAt([r, m, y], r.uid) == Some(a) && MessageIdAt([r, m, y], m.uid) == Some(b)
  {
    OwnersOfThree(r, m, y, a, b);
    OwnerBears([r, m, y], a);
    OwnerBears([r, m, y], b);
  }

  /** A reply can get another id than a parent it names, with no cycle near: here its
      References name r and its In-Reply-To names m, and it takes the id of r. */
  lemma OtherParentOtherId(r: Message, m: Message, y: Message, c: char, d: char)
    requires c !in {'<', '>'} && d !in {'<', '>'} && c != d
    requires r.messageId == Some(IdOf(c)) && m.messageId == Some(IdOf(d)) && y.messageId == None
    requires r.references == m.references == [] && r.inReplyTo == m.inReplyTo == None
    requires y.references == [IdOf(c)] && y.inReplyTo == Some(IdOf(d))
    requires r.uid != m.uid && r.uid != y.uid && m.uid != y.uid
    ensures var parents := Parents([r, m, y]);
      && m.uid in Next(parents, y.uid) && !OnCycle(parents, m.uid) && !OnCycle(parents, y.uid)
      && ThreadId([r, m, y], parents, y.uid) == IdOf(c) && ThreadId([r, m, y], parents, m.uid) == IdOf(d)
  {
    OneId(c);
    OneId(d);
    assert IdOf(c)[1] != IdOf(d)[1];
    OtherParentOf(r, m, y, IdOf(c), IdOf(d));
  }

  lemma OtherParentOf(r: Message, m: Message, y: Message, a: string, b: string)
    requires MessageIds(a) == [a] && MessageIds(b) == [b] && a != b
    requires r.messageId == Some(a) && m.messageId == Some(b) && y.messageId == None
    requires r.references == m.references == [] && r.inReplyTo == m.inReplyTo == None
    requires y.references == [a] && y.inReplyTo == Some(b)
    requires r.uid != m.uid && r.uid != y.uid && m.uid != y.uid
    ensures var parents := Parents([r, m, y]);
      && m.uid in Next(parents, y.uid) && !OnCycle(parents, m.uid) && !OnCycle(parents, y.uid)
      && ThreadId([r, m, y], parents, y.uid) == a && ThreadId([r, m, y], parents, m.uid) == b
  {
    ReplyNamesBoth(y, a, b);
    ParentsOfThree(r, m, y, a, b);
    SettleOfThree(r.uid, m.uid, y.uid);
    IdsOfThree(r, m, y, a, b);
  }
}
