/** Module-scope constants: one pool for all functions, on the ids of their one cursor. */
module Literals {
  import opened Options
  import opened Scalars

  /** A constant as declared: its id, its class and the word it holds. */
  datatype Declaration = Declaration(id: nat, kind: Class, payload: int)

  /**
  The word a literal is declared with: an integer is the number, a float its low thirty-two bits, a brain float their
  high half.
   */
  function Payload(kind: Class, value: int): int {
    match kind
    case IntClass => value
    case FloatClass => value % 0x1_0000_0000
    case BFloat16Class => value % 0x1_0000_0000 - value % 0x1_0000
  }

  type Key = (Class, int)

  /** What the pool holds: the id of each literal asked for, and their declarations in order. */
  datatype Table = Table(ids: map<Key, nat>, declarations: seq<Declaration>)

  function EmptyTable(): Table {
    Table(map[], [])
  }

  /** The pool and the id cursor it shares with everything else that takes ids. */
  datatype Cursor = Cursor(pool: Table, next: nat)

  /** `get`: the literal's id, taken and declared at its first use. */
  function Ask(c: Cursor, key: Key): (nat, Cursor) {
    if key in c.pool.ids then (c.pool.ids[key], c)
    else
      (c.next, Cursor(Table(c.pool.ids[key := c.next],
        c.pool.declarations + [Declaration(c.next, key.0, Payload(key.0, key.1))]), c.next + 1))
  }

  ghost predicate Declares(t: Table, d: Declaration, key: Key) {
    key in t.ids && d == Declaration(t.ids[key], key.0, Payload(key.0, key.1))
  }

  /** The declarations sit on rising ids, all below the cursor. */
  ghost predicate Rising(c: Cursor) {
    && (forall i: nat :: i < |c.pool.declarations| ==> c.pool.declarations[i].id < c.next)
    && (forall i: nat, j: nat :: i < j < |c.pool.declarations| ==>
         c.pool.declarations[i].id < c.pool.declarations[j].id)
  }

  ghost predicate IsDeclared(t: Table, key: Key) {
    exists i: nat :: i < |t.declarations| && Declares(t, t.declarations[i], key)
  }

  ghost predicate IsAskedFor(t: Table, d: Declaration) {
    exists key :: Declares(t, d, key)
  }

  /** Every literal has its declaration, every declaration its literal, and no two literals share an id. */
  ghost predicate Sound(c: Cursor) {
    && Rising(c)
    && (forall key :: key in c.pool.ids ==> IsDeclared(c.pool, key))
    && (forall i: nat :: i < |c.pool.declarations| ==> IsAskedFor(c.pool, c.pool.declarations[i]))
    && OneEach(c.pool.ids)
  }

  ghost predicate OneEach(ids: map<Key, nat>) {
    forall a, b :: a in ids && b in ids && ids[a] == ids[b] ==> a == b
  }

  /** What one pool has the other has, on the same ids. */
  ghost predicate Within(a: Cursor, b: Cursor) {
    a.next <= b.next && forall k :: k in a.pool.ids ==> k in b.pool.ids && b.pool.ids[k] == a.pool.ids[k]
  }

  lemma DeclaredBelow(c: Cursor, key: Key)
    requires Sound(c) && key in c.pool.ids
    ensures c.pool.ids[key] < c.next
  {
    assert IsDeclared(c.pool, key);
  }

  /** Asking keeps every literal's id, and its answer is the one kept for the literal asked for. */
  lemma AskKeeps(c: Cursor, key: Key)
    requires Sound(c)
    ensures var (id, after) := Ask(c, key);
      Sound(after) && Within(c, after) && key in after.pool.ids && after.pool.ids[key] == id
  {
    if key !in c.pool.ids { OneMoreIsSound(c, key, Ask(c, key).1); }
  }

  lemma OneMoreIsSound(c: Cursor, key: Key, after: Cursor)
    requires Sound(c) && key !in c.pool.ids && after == Ask(c, key).1
    ensures Sound(after)
  {
    forall k | k in after.pool.ids ensures IsDeclared(after.pool, k) { OneMoreIsDeclared(c, key, k); }
    forall i: nat | i < |after.pool.declarations| ensures IsAskedFor(after.pool, after.pool.declarations[i]) {
      OneMoreIsAskedFor(c, key, i);
    }
    forall k | k in c.pool.ids ensures c.pool.ids[k] < c.next { DeclaredBelow(c, k); }
    OneMoreEach(c.pool.ids, key, c.next);
    OneMoreRises(c, key);
  }

  lemma OneMoreEach(ids: map<Key, nat>, key: Key, id: nat)
    requires OneEach(ids) && forall k :: k in ids ==> ids[k] < id
    ensures OneEach(ids[key := id])
  {
  }

  lemma OneMoreRises(c: Cursor, key: Key)
    requires Rising(c) && key !in c.pool.ids
    ensures Rising(Ask(c, key).1)
  {
  }

  lemma OneMoreIsDeclared(c: Cursor, key: Key, k: Key)
    requires key !in c.pool.ids && (k == key || (k in c.pool.ids && IsDeclared(c.pool, k)))
    ensures IsDeclared(Ask(c, key).1.pool, k)
  {
    var now := Ask(c, key).1.pool;
    if k == key {
      assert Declares(now, now.declarations[|c.pool.declarations|], k);
    } else {
      var i: nat :| i < |c.pool.declarations| && Declares(c.pool, c.pool.declarations[i], k);
      assert Declares(now, now.declarations[i], k);
    }
  }

  lemma OneMoreIsAskedFor(c: Cursor, key: Key, i: nat)
    requires key !in c.pool.ids && i < |Ask(c, key).1.pool.declarations|
    requires i < |c.pool.declarations| ==> IsAskedFor(c.pool, c.pool.declarations[i])
    ensures IsAskedFor(Ask(c, key).1.pool, Ask(c, key).1.pool.declarations[i])
  {
    var now := Ask(c, key).1.pool;
    if i < |c.pool.declarations| {
      var k :| Declares(c.pool, c.pool.declarations[i], k);
      assert Declares(now, now.declarations[i], k);
    } else {
      assert Declares(now, now.declarations[i], key);
    }
  }

  /** The declared word is the number, its low thirty-two bits, or of those the high half over zeros. */
  predicate Spells(kind: Class, value: int, word: int) {
    match kind
    case IntClass => word == value
    case FloatClass => 0 <= word < 0x1_0000_0000 && (value - word) % 0x1_0000_0000 == 0
    case BFloat16Class =>
      0 <= word < 0x1_0000_0000 && word % 0x1_0000 == 0 && (value - word) % 0x1_0000_0000 < 0x1_0000
  }

  lemma PayloadSpells(kind: Class, value: int)
    ensures Spells(kind, value, Payload(kind, value))
  {
    var low := value % 0x1_0000_0000;
    assert low % 0x1_0000 == value % 0x1_0000;
    assert (value - (low - value % 0x1_0000)) % 0x1_0000_0000 == value % 0x1_0000;
  }

  /** A literal's one declaration: its id, its class, and the word that spells it. */
  ghost predicate DeclaredOnce(t: Table, key: Key, i: nat)
    requires key in t.ids && i < |t.declarations|
  {
    && t.declarations[i].id == t.ids[key] && t.declarations[i].kind == key.0
    && Spells(key.0, key.1, t.declarations[i].payload) && Alone(t.declarations, i)
  }

  /** Two literals never share an id, every literal's id is below the cursor, and one declaration alone has it. */
  lemma LiteralsAreInjective(c: Cursor, a: Key, b: Key)
    requires Sound(c) && a in c.pool.ids && b in c.pool.ids
    ensures c.pool.ids[a] == c.pool.ids[b] <==> a == b
    ensures c.pool.ids[a] < c.next
    ensures exists i: nat :: i < |c.pool.declarations| && DeclaredOnce(c.pool, a, i)
  {
    DeclaredBelow(c, a);
    var i: nat :| i < |c.pool.declarations| && Declares(c.pool, c.pool.declarations[i], a);
    forall j: nat | j < |c.pool.declarations| && j != i ensures c.pool.declarations[j].id != c.pool.declarations[i].id {
      assert j < i || i < j;
    }
    PayloadSpells(a.0, a.1);
    assert DeclaredOnce(c.pool, a, i);
  }

  /** No other declaration has the id of the `i`-th. */
  ghost predicate Alone(declarations: seq<Declaration>, i: nat)
    requires i < |declarations|
  {
    forall j: nat :: j < |declarations| && j != i ==> declarations[j].id != declarations[i].id
  }

  class Pool {
    var ids: map<Key, nat>
    var declarations: seq<Declaration>

    function Now(next: nat): Cursor
      reads this
    {
      Cursor(Table(ids, declarations), next)
    }

    constructor ()
      ensures forall next :: Now(next) == Cursor(EmptyTable(), next)
    {
      ids, declarations := map[], [];
    }

    /** The id of a literal, and the cursor after it. */
    method Get(kind: Class, value: int, next: nat) returns (id: nat, after: nat)
      modifies this
      ensures (id, Now(after)) == Ask(old(Now(next)), (kind, value))
    {
      if (kind, value) in ids { return ids[(kind, value)], next; }
      declarations := declarations + [Declaration(next, kind, Payload(kind, value))];
      ids := ids[(kind, value) := next];
      return next, next + 1;
    }
  }
}
