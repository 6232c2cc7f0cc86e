/** Programs of transactional methods executed one step at a time, as an independent account of what they write and
    whether they throw: a throw drops everything up to the nearest handler. */
module TransactionSteps {
  import opened Transactions

  /** What is left to do when the current program has ended: more to run, or a handler that runs after a throw. */
  datatype Frame<V> = Continue(p: Program<V>) | Handle(p: Program<V>)

  datatype Control<V> = Run(p: Program<V>) | Return | Unwind

  datatype Config<V> = Config(now: Control<V>, rest: seq<Frame<V>>, written: seq<V>)

  /** One step inside a transaction. A return goes on behind the program and past a handler; a throw goes past what
      was to follow and into the nearest handler. */
  function Step<V>(c: Config<V>): Config<V> {
    match c.now
    case Run(Skip) => c.(now := Return)
    case Run(Write(v)) => Config(Return, c.rest, c.written + [v])
    case Run(Throw) => c.(now := Unwind)
    case Run(Seq(a, b)) => Config(Run(a), [Continue(b)] + c.rest, c.written)
    case Run(Try(a, b)) => Config(Run(a), [Handle(b)] + c.rest, c.written)
    case Run(Call(_, m)) => c.(now := Run(m))
    case Return =>
      if c.rest == [] then c
      else if c.rest[0].Continue? then Config(Run(c.rest[0].p), c.rest[1..], c.written)
      else c.(rest := c.rest[1..])
    case Unwind =>
      if c.rest == [] then c
      else if c.rest[0].Handle? then Config(Run(c.rest[0].p), c.rest[1..], c.written)
      else c.(rest := c.rest[1..])
  }

  function Steps<V>(c: Config<V>, n: nat): Config<V>
    decreases n
  {
    if n == 0 then c else Steps(Step(c), n - 1)
  }

  lemma {:induction false} StepsAdd<V>(c: Config<V>, m: nat, n: nat)
    ensures Steps(c, m + n) == Steps(Steps(c, m), n)
    decreases m
  {
    if m > 0 {
      StepsAdd(Step(c), m - 1, n);
    }
  }

  function Ended<V>(p: Program<V>, rest: seq<Frame<V>>, written: seq<V>): Config<V> {
    Config(if Inside(p).threw then Unwind else Return, rest, written + Inside(p).writes)
  }

  lemma PopsFirst<V>(f: Frame<V>, rest: seq<Frame<V>>)
    ensures ([f] + rest)[0] == f && ([f] + rest)[1..] == rest && [f] + rest != []
  {
  }

  /** Step by step a program writes exactly what it is said to write, in order, and throws exactly when it is said
      to, whatever is left to do around it. */
  lemma {:induction false} RunsAsSpecified<V>(p: Program<V>, rest: seq<Frame<V>>, written: seq<V>) returns (n: nat)
    ensures Steps(Config(Run(p), rest, written), n) == Ended(p, rest, written)
    decreases p
  {
    var c := Config(Run(p), rest, written);
    match p {
      case Skip =>
        n := 1;
        assert Steps(c, 1) == Steps(Step(c), 0) && written + [] == written;
      case Write(v) =>
        n := 1;
        assert Steps(c, 1) == Steps(Step(c), 0);
      case Throw =>
        n := 1;
        assert Steps(c, 1) == Steps(Step(c), 0) && written + [] == written;
      case Call(_, m) =>
        var k := RunsAsSpecified(m, rest, written);
        n := 1 + k;
      case Seq(a, b) => n := PartsRun(a, Continue(b), rest, written);
      case Try(a, b) => n := PartsRun(a, Handle(b), rest, written);
    }
  }

  /** The frame's program runs after the first exactly for a return into `Continue` or a throw into `Handle`. */
  lemma {:induction false} PartsRun<V>(a: Program<V>, f: Frame<V>, rest: seq<Frame<V>>, written: seq<V>)
    returns (n: nat)
    ensures var p := if f.Continue? then Seq(a, f.p) else Try(a, f.p);
            Steps(Config(Run(p), rest, written), n) == Ended(p, rest, written)
    decreases if f.Continue? then Seq(a, f.p) else Try(a, f.p), 0
  {
    var p := if f.Continue? then Seq(a, f.p) else Try(a, f.p);
    var c := Config(Run(p), rest, written);
    PopsFirst(f, rest);
    var k := RunsAsSpecified(a, [f] + rest, written);
    var u := Ended(a, [f] + rest, written);
    StepsAdd(Step(c), k, 1);
    assert Steps(Step(c), k + 1) == Steps(u, 1) == Step(u);
    if Inside(a).threw == f.Handle? {
      var l := RunsAsSpecified(f.p, rest, written + Inside(a).writes);
      StepsAdd(Step(c), k + 1, l);
      n := 1 + k + 1 + l;
      assert Step(u) == Config(Run(f.p), rest, written + Inside(a).writes);
      assert written + Inside(a).writes + Inside(f.p).writes == written + (Inside(a).writes + Inside(f.p).writes);
    } else {
      n := 1 + k + 1;
      assert Step(u) == Config(u.now, rest, written + Inside(a).writes);
    }
  }

  lemma {:induction false} EndsOnce<V>(c: Config<V>, m: nat, n: nat)
    requires Final(Steps(c, m)) && Final(Steps(c, n)) && m <= n
    ensures Steps(c, m) == Steps(c, n)
  {
    StepsAdd(c, m, n - m);
    StaysFinal(Steps(c, m), n - m);
  }

  ghost predicate Final<V>(c: Config<V>) {
    c.rest == [] && !c.now.Run?
  }

  lemma {:induction false} StaysFinal<V>(c: Config<V>, n: nat)
    requires Final(c)
    ensures Steps(c, n) == c
  {
    if n > 0 {
      StaysFinal(c, n - 1);
    }
  }

  /** An outermost call whose steps end in a return commits what they have written, in order, in one transaction; if
      they end in a throw, it commits nothing and throws. Every call's steps end one way. */
  lemma CallCommitsItsSteps<V>(env: Environment, m: Program<V>, n: nat)
    requires Final(Steps(Config(Run(m), [], []), n)) && env == Environment(true, true, true)
    ensures var last := Steps(Config(Run(m), [], []), n);
            Outside(Call(env, m)) == if last.now == Return then Result(last.written, 1, false) else Result([], 1, true)
  {
    var k := RunsAsSpecified(m, [], []);
    if k <= n {
      EndsOnce(Config(Run(m), [], []), k, n);
    } else {
      EndsOnce(Config(Run(m), [], []), n, k);
    }
    assert [] + Inside(m).writes == Inside(m).writes;
  }

  lemma EveryCallEnds<V>(m: Program<V>)
    ensures exists n: nat :: Final(Steps(Config(Run(m), [], []), n))
  {
    var k := RunsAsSpecified(m, [], []);
    assert Final(Steps(Config(Run(m), [], []), k));
  }

  // ---- throws ------------------------------------------------------------------------------

  /** A throw is reached outside every handled body: by either part of a sequence, or by a body and its handler. */
  function Escapes<V>(p: Program<V>): bool {
    match p
    case Throw => true
    case Seq(a, b) => Escapes(a) || Escapes(b)
    case Try(a, b) => Escapes(a) && Escapes(b)
    case Call(_, m) => Escapes(m)
    case _ => false
  }

  lemma {:induction false} ThrowsIffEscapes<V>(p: Program<V>)
    ensures Inside(p).threw <==> Escapes(p)
  {
    match p {
      case Seq(a, b) => ThrowsIffEscapes(a); ThrowsIffEscapes(b);
      case Try(a, b) => ThrowsIffEscapes(a); ThrowsIffEscapes(b);
      case Call(_, m) => ThrowsIffEscapes(m);
      case _ =>
    }
  }

  /** An outermost call from whose method a throw escapes throws and commits nothing, however much was written and
      whatever would have followed. */
  lemma EscapedThrowCommitsNothing<V>(env: Environment, m: Program<V>)
    requires Escapes(m)
    ensures Outside(Call(env, m)).threw && Outside(Call(env, m)).committed == []
  {
    ThrowsIffEscapes(m);
  }

  /** What follows an escaping throw makes no difference. */
  lemma NothingFollowsAThrow<V>(a: Program<V>, b: Program<V>, c: Program<V>, env: Environment)
    requires Escapes(a)
    ensures Inside(Seq(a, b)) == Inside(a) && Outside(Call(env, Seq(a, b))) == Outside(Call(env, a))
    ensures Inside(Try(Seq(a, b), c)) == Inside(Try(a, c))
  {
    ThrowsIffEscapes(a);
  }
}
