/** Transactional methods with REQUIRED propagation. A program is a tree of writes through the ambient
    manager, throws, handlers and calls of decorated methods; the database commits or rolls back the one
    transaction that the outermost call opened. */
module Transactions {

  /** What the environment decides about a call that opens a transaction: whether the receiver has a
      `dataSource`, and whether beginning and committing succeed. */
  datatype Environment = Environment(hasDataSource: bool, begins: bool, commits: bool)

  datatype Program<V> =
    | Skip
    | Write(value: V)
    | Throw
    | Seq(first: Program, second: Program)
    | Try(body: Program, handler: Program)
    | Call(env: Environment, method_: Program)

  /** The writes a program makes inside a transaction, and whether it throws. A handler runs after a
      throw; nothing already written is taken back. A call just runs its method. */
  datatype Effect<V> = Effect(writes: seq<V>, threw: bool)

  function Inside<V>(p: Program<V>): Effect<V> {
    match p
    case Skip => Effect([], false)
    case Write(v) => Effect([v], false)
    case Throw => Effect([], true)
    case Seq(a, b) =>
      var first := Inside(a);
      if first.threw then first else Effect(first.writes + Inside(b).writes, Inside(b).threw)
    case Try(a, b) =>
      var body := Inside(a);
      if body.threw then Effect(body.writes + Inside(b).writes, Inside(b).threw) else body
    case Call(_, m) => Inside(m)
  }

  /** What a program started without a transaction leaves: the committed writes, how many transactions
      were begun, and whether it throws. */
  datatype Result<V> = Result(committed: seq<V>, begun: nat, threw: bool)

  function OutermostCall<V>(env: Environment, m: Program<V>): Result<V> {
    var inner := Inside(m);
    if !env.hasDataSource || !env.begins then Result([], 0, true)
    else if inner.threw || !env.commits then Result([], 1, true)
    else Result(inner.writes, 1, false)
  }

  function Then<V>(a: Result<V>, b: Result<V>): Result<V> {
    Result(a.committed + b.committed, a.begun + b.begun, b.threw)
  }

  function Outside<V>(p: Program<V>): Result<V> {
    match p
    case Skip => Result([], 0, false)
    case Write(_) => Result([], 0, true)
    case Throw => Result([], 0, true)
    case Seq(a, b) => if Outside(a).threw then Outside(a) else Then(Outside(a), Outside(b))
    case Try(a, b) => if Outside(a).threw then Then(Outside(a), Outside(b)) else Outside(a)
    case Call(env, m) => OutermostCall(env, m)
  }

  // ---- the database and the ambient context ------------------------------------------------

  /** One connection: a transaction can only begin when none is open. */
  class Database<V> {
    var open: bool
    var pending: seq<V>
    var committed: seq<V>
    var begun: nat

    constructor ()
      ensures !open && pending == [] && committed == [] && begun == 0
    {
      open, pending, committed, begun := false, [], [], 0;
    }

    method Begin()
      requires !open
      modifies this
      ensures open && pending == [] && committed == old(committed) && begun == old(begun) + 1
    {
      open, pending, begun := true, [], begun + 1;
    }

    method Insert(value: V)
      requires open
      modifies this`pending
      ensures pending == old(pending) + [value]
    {
      pending := pending + [value];
    }

    method Commit()
      requires open
      modifies this
      ensures !open && committed == old(committed + pending) && begun == old(begun)
    {
      open, committed, pending := false, committed + pending, [];
    }

    method Rollback()
      requires open
      modifies this
      ensures !open && committed == old(committed) && begun == old(begun)
    {
      open, pending := false, [];
    }
  }

  /** The ambient store: `active` is whether it holds a manager. */
  class Runtime<V> {
    const db: Database<V>
    var active: bool

    constructor (db: Database<V>)
      requires !db.open
      ensures this.db == db && Valid() && !active
    {
      this.db, active := db, false;
    }

    /** The context holds a manager exactly while a transaction is open. */
    ghost predicate Valid()
      reads this, db
    {
      active <==> db.open
    }

    /** Runs a program. Transactions never nest, the context is restored whatever happens, and the
        effect on the database is the one specified. */
    method Execute(p: Program<V>) returns (threw: bool)
      requires Valid()
      modifies this, db
      ensures Valid() && active == old(active)
      ensures active ==>
                && threw == Inside(p).threw && db.pending == old(db.pending) + Inside(p).writes
                && db.committed == old(db.committed) && db.begun == old(db.begun)
      ensures !active ==>
                && threw == Outside(p).threw && db.committed == old(db.committed) + Outside(p).committed
                && db.begun == old(db.begun) + Outside(p).begun
      decreases p, 0
    {
      match p {
        case Skip => threw := false;
        case Throw => threw := true;
        case Write(v) =>
          threw := !active;
          if active { db.Insert(v); }
        case Seq(a, b) =>
          threw := Execute(a);
          if !threw { threw := Execute(b); }
        case Try(a, b) =>
          threw := Execute(a);
          if threw { threw := Execute(b); }
        case Call(env, m) =>
          if active {
            threw := Execute(m);
          } else if !env.hasDataSource || !env.begins {
            threw := true;
          } else {
            db.Begin();
            threw := RunInContext(m);
            if !threw && env.commits {
              db.Commit();
            } else {
              db.Rollback();
              threw := true;
            }
          }
      }
    }

    /** `TransactionContext.run`: the manager is in the store for the method and gone afterwards. */
    method RunInContext(m: Program<V>) returns (threw: bool)
      requires !active && db.open && db.pending == []
      modifies this, db
      ensures !active && db.open
      ensures threw == Inside(m).threw && db.pending == Inside(m).writes
      ensures db.committed == old(db.committed) && db.begun == old(db.begun)
      decreases m, 1
    {
      active := true;
      threw := Execute(m);
      active := false;
    }
  }

  // ---- laws --------------------------------------------------------------------------------

  /** Inside a transaction: a throw stops what follows it and starts the nearest handler, and writes add up in order. */
  lemma InsideLaws<V>(v: V, a: Program<V>, b: Program<V>, env: Environment)
    ensures Inside<V>(Skip) == Effect([], false) && Inside(Write(v)) == Effect([v], false)
    ensures Inside<V>(Throw) == Effect([], true) && Inside(Call(env, a)) == Inside(a)
    ensures Inside(a).threw ==> Inside(Seq(a, b)) == Inside(a)
    ensures !Inside(a).threw ==>
              Inside(Seq(a, b)) == Effect(Inside(a).writes + Inside(b).writes, Inside(b).threw)
    ensures !Inside(a).threw ==> Inside(Try(a, b)) == Inside(a)
    ensures Inside(a).threw ==>
              Inside(Try(a, b)) == Effect(Inside(a).writes + Inside(b).writes, Inside(b).threw)
  {
  }

  /** Outside one: writing throws, and what one part has committed stays when the next one runs or handles its throw. */
  lemma OutsideLaws<V>(v: V, a: Program<V>, b: Program<V>)
    ensures Outside<V>(Skip) == Result([], 0, false)
    ensures Outside(Write(v)) == Result([], 0, true) && Outside<V>(Throw) == Result([], 0, true)
    ensures Outside(a).threw ==> Outside(Seq(a, b)) == Outside(a)
    ensures !Outside(a).threw ==> Outside(Try(a, b)) == Outside(a)
    ensures var both := Result(Outside(a).committed + Outside(b).committed, Outside(a).begun + Outside(b).begun,
                               Outside(b).threw);
            && (!Outside(a).threw ==> Outside(Seq(a, b)) == both)
            && (Outside(a).threw ==> Outside(Try(a, b)) == both)
  {
  }

  /** The program without its decorators. */
  function Erased<V>(p: Program<V>): Program<V> {
    match p
    case Seq(a, b) => Seq(Erased(a), Erased(b))
    case Try(a, b) => Try(Erased(a), Erased(b))
    case Call(_, m) => Erased(m)
    case _ => p
  }

  /** Inside a transaction decorators make no difference, however deeply calls nest and whatever their
      receivers lack. */
  lemma {:induction false} NestedCallsJoin<V>(p: Program<V>)
    ensures Inside(p) == Inside(Erased(p))
  {
    match p {
      case Seq(a, b) => NestedCallsJoin(a); NestedCallsJoin(b);
      case Try(a, b) => NestedCallsJoin(a); NestedCallsJoin(b);
      case Call(_, m) => NestedCallsJoin(m);
      case _ =>
    }
  }

  /** Without decorators nothing outside a transaction is ever written. */
  lemma {:induction false} UndecoratedWritesNothing<V>(p: Program<V>)
    ensures Outside(Erased(p)).committed == [] && Outside(Erased(p)).begun == 0
  {
    match p {
      case Seq(a, b) => UndecoratedWritesNothing(a); UndecoratedWritesNothing(b);
      case Try(a, b) => UndecoratedWritesNothing(a); UndecoratedWritesNothing(b);
      case Call(_, m) => UndecoratedWritesNothing(m);
      case _ =>
    }
  }

  /** All or nothing: an outermost call with any tree of calls below it begins at most one transaction,
      and commits every write of the undecorated body, in order, exactly when it returns normally. */
  lemma AllOrNothing<V>(env: Environment, m: Program<V>)
    ensures var r, plain := Outside(Call(env, m)), Inside(Erased(m));
            && r.begun == (if env.hasDataSource && env.begins then 1 else 0)
            && r.committed == (if r.threw then [] else plain.writes)
            && (r.threw <==> plain.threw || !(env.hasDataSource && env.begins && env.commits))
  {
    NestedCallsJoin(m);
  }

  /** Decorating a method that only calls a decorated method changes nothing. */
  lemma DecoratingTwiceIsOnce<V>(env: Environment, inner: Environment, m: Program<V>)
    ensures Outside(Call(env, Call(inner, m))) == Outside(Call(env, m))
    ensures Inside(Call(env, Call(inner, m))) == Inside(m)
  {
  }

  /** Inside a transaction, catching the throw of an inner decorated call rolls back none of the writes it
      had made: they commit with the outer call. */
  lemma CaughtFailureKeepsWrites<V>(env: Environment, body: Program<V>, handler: Program<V>, outer: Environment)
    requires outer == Environment(true, true, true) && !Inside(handler).threw && Inside(body).threw
    ensures Outside(Call(outer, Try(Call(env, body), handler))) ==
              Result(Inside(body).writes + Inside(handler).writes, 1, false)
  {
    assert Inside(Call(env, body)) == Inside(body);
  }

  /** What each outermost call that a program reaches does, in order. */
  function Reached<V>(p: Program<V>): seq<Result<V>> {
    match p
    case Seq(a, b) => Reached(a) + if Outside(a).threw then [] else Reached(b)
    case Try(a, b) => Reached(a) + if Outside(a).threw then Reached(b) else []
    case Call(env, m) => [OutermostCall(env, m)]
    case _ => []
  }

  function Joined<V>(parts: seq<seq<V>>): seq<V> {
    if parts == [] then [] else parts[0] + Joined(parts[1..])
  }

  function Committed<V>(results: seq<Result<V>>): seq<seq<V>> {
    seq(|results|, i requires 0 <= i < |results| => results[i].committed)
  }

  function Begun<V>(results: seq<Result<V>>): nat {
    if results == [] then 0 else results[0].begun + Begun(results[1..])
  }

  lemma {:induction false} JoinedConcat<V>(a: seq<seq<V>>, b: seq<seq<V>>)
    ensures Joined(a + b) == Joined(a) + Joined(b)
  {
    if a == [] {
      assert a + b == b;
    } else {
      JoinedConcat(a[1..], b);
      assert (a + b)[1..] == a[1..] + b && (a + b)[0] == a[0];
    }
  }

  lemma {:induction false} BegunConcat<V>(a: seq<Result<V>>, b: seq<Result<V>>)
    ensures Begun(a + b) == Begun(a) + Begun(b)
  {
    if a == [] {
      assert a + b == b;
    } else {
      BegunConcat(a[1..], b);
      assert (a + b)[1..] == a[1..] + b && (a + b)[0] == a[0];
    }
  }

  lemma TogetherConcat<V>(a: seq<Result<V>>, b: seq<Result<V>>)
    ensures Joined(Committed(a + b)) == Joined(Committed(a)) + Joined(Committed(b))
    ensures Begun(a + b) == Begun(a) + Begun(b)
  {
    assert Committed(a + b) == Committed(a) + Committed(b);
    JoinedConcat(Committed(a), Committed(b));
    BegunConcat(a, b);
  }

  /** Any program, from outside: the database gains exactly what its outermost calls commit, one
      transaction each, in the order they are reached. */
  lemma {:induction false} OutermostCallsDecide<V>(p: Program<V>)
    ensures Outside(p).committed == Joined(Committed(Reached(p)))
    ensures Outside(p).begun == Begun(Reached(p))
  {
    match p {
      case Seq(a, b) =>
        OutermostCallsDecide(a);
        OutermostCallsDecide(b);
        TogetherConcat(Reached(a), Reached(b));
        assert Reached(a) + [] == Reached(a);
      case Try(a, b) =>
        OutermostCallsDecide(a);
        OutermostCallsDecide(b);
        TogetherConcat(Reached(a), Reached(b));
        assert Reached(a) + [] == Reached(a);
      case Call(env, m) =>
        assert Committed(Reached(p)) == [Outside(p).committed];
        assert [Outside(p).committed][1..] == [] && Outside(p).committed + [] == Outside(p).committed;
      case _ =>
    }
  }

  /** What one part committed stays committed, even if the next part fails. */
  lemma CommittedStays<V>(a: Program<V>, b: Program<V>)
    ensures Outside(a).committed <= Outside(Seq(a, b)).committed
    ensures Outside(a).committed <= Outside(Try(a, b)).committed
  {
  }
}
