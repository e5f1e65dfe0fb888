/**
 * The decorators of `deco.py`: `n_ary`, `countcalls`, `memo`, the counter of `trace`, and the three
 * decorated functions `foo`, `bar` and `fib` that `main` calls.
 *
 * A decorated function is an object: `countcalls` keeps the attribute `calls`, `memo` keeps the
 * dictionary `vault`, `trace` keeps the attribute `count`. Each becomes a class whose `Call` method
 * updates that state; the function a decorator wraps is a `const` of the class when it has no state of
 * its own, and an object the class holds when it has.
 */
module Deco {
  import opened Chars
  import opened PyRepr

  // ----- n_ary -----

  /**
   * `n_ary(func)` called as `wrapper(first, second, *args)`: `func(first, second)` when nothing follows,
   * otherwise `func(first, wrapper(second, *args))`, a right fold. The signature needs at least two
   * arguments.
   */
  function NAry(f: (int, int) -> int, xs: seq<int>): int
    requires |xs| >= 2
    decreases |xs|
  {
    if |xs| == 2 then f(xs[0], xs[1]) else f(xs[0], NAry(f, xs[1..]))
  }

  function Add(a: int, b: int): int { a + b }

  function Mul(a: int, b: int): int { a * b }

  /** The undecorated `foo` after `n_ary`: addition over any number (at least two) of arguments. */
  function AddAll(xs: seq<int>): int
    requires |xs| >= 2
  {
    NAry(Add, xs)
  }

  /** The undecorated `bar` after `n_ary`: multiplication over any number (at least two) of arguments. */
  function MulAll(xs: seq<int>): int
    requires |xs| >= 2
  {
    NAry(Mul, xs)
  }

  /** Reference sum, accumulated from the left. */
  function Total(xs: seq<int>): int {
    if xs == [] then 0 else Total(xs[..|xs| - 1]) + xs[|xs| - 1]
  }

  /** Reference product, accumulated from the left. */
  function Product(xs: seq<int>): int {
    if xs == [] then 1 else Product(xs[..|xs| - 1]) * xs[|xs| - 1]
  }

  lemma {:induction false} TotalCons(x: int, ys: seq<int>)
    ensures Total([x] + ys) == x + Total(ys)
    decreases |ys|
  {
    if ys != [] {
      var zs := [x] + ys;
      assert zs[..|zs| - 1] == [x] + ys[..|ys| - 1];
      TotalCons(x, ys[..|ys| - 1]);
    }
  }

  lemma {:induction false} ProductCons(x: int, ys: seq<int>)
    ensures Product([x] + ys) == x * Product(ys)
    decreases |ys|
  {
    if ys != [] {
      var zs := [x] + ys;
      var p := ys[..|ys| - 1];
      assert zs[..|zs| - 1] == [x] + p;
      ProductCons(x, p);
      assert (x * Product(p)) * ys[|ys| - 1] == x * (Product(p) * ys[|ys| - 1]);
    }
  }

  /** The right fold of `+` is the ordinary sum of all the arguments. */
  lemma {:induction false} AddAllIsTotal(xs: seq<int>)
    requires |xs| >= 2
    ensures AddAll(xs) == Total(xs)
    decreases |xs|
  {
    if |xs| == 2 {
      TotalCons(xs[0], xs[1..]);
      assert xs[1..][..0] == [];
      assert [xs[0]] + xs[1..] == xs;
    } else {
      AddAllIsTotal(xs[1..]);
      TotalCons(xs[0], xs[1..]);
      assert [xs[0]] + xs[1..] == xs;
    }
  }

  /** The right fold of `*` is the ordinary product of all the arguments. */
  lemma {:induction false} MulAllIsProduct(xs: seq<int>)
    requires |xs| >= 2
    ensures MulAll(xs) == Product(xs)
    decreases |xs|
  {
    if |xs| == 2 {
      ProductCons(xs[0], xs[1..]);
      assert xs[1..][..0] == [];
      assert [xs[0]] + xs[1..] == xs;
    } else {
      MulAllIsProduct(xs[1..]);
      ProductCons(xs[0], xs[1..]);
      assert [xs[0]] + xs[1..] == xs;
    }
  }

  /** The calls `main` makes: 4+3, 4+(3+2), 4*3, 4*(3*2), 4*(3*(2*1)). */
  lemma NAryExamples()
    ensures AddAll([4, 3]) == 7 && AddAll([4, 3, 2]) == 9
    ensures MulAll([4, 3]) == 12 && MulAll([4, 3, 2]) == 24 && MulAll([4, 3, 2, 1]) == 24
  {
  }

  // ----- countcalls -----

  /** `countcalls(func)`: a wrapper whose `calls` attribute starts at 0 and counts its invocations. */
  class CountCalls {
    var calls: nat
    const func: seq<int> --> int

    constructor (func: seq<int> --> int)
      ensures this.func == func && calls == 0
    {
      this.func := func;
      calls := 0;
    }

    /** One more call, and the wrapped result unchanged. */
    method Call(args: seq<int>) returns (r: int)
      requires func.requires(args)
      modifies this
      ensures r == func(args)
      ensures calls == old(calls) + 1
    {
      calls := calls + 1;
      r := func(args);
    }
  }

  // ----- memo -----

  /**
   * `memo(func)` for a deterministic `func`: `vault` maps the key `str(args) + str(kwargs)` of each
   * earlier call to its result.
   */
  class Memo {
    var vault: map<string, int>
    const func: seq<int> --> int

    /** Every stored result is what `func` gives for the arguments the key was made from. */
    ghost predicate Valid()
      reads this
    {
      forall args {:trigger Key(args)} :: Key(args) in vault ==> func.requires(args) && vault[Key(args)] == func(args)
    }

    constructor (func: seq<int> --> int)
      ensures this.func == func && vault == map[] && Valid()
    {
      this.func := func;
      vault := map[];
    }

    /**
     * The result of `func(args)`; on the first call with these arguments it is computed and stored
     * under their key, on later calls it is read back and the vault stays as it was.
     */
    method Call(args: seq<int>) returns (r: int)
      requires Valid() && func.requires(args)
      modifies this
      ensures Valid()
      ensures r == func(args)
      ensures Key(args) in old(vault) ==> vault == old(vault)
      ensures Key(args) !in old(vault) ==> vault == old(vault)[Key(args) := r]
    {
      var key := Key(args);
      if key in vault {
        r := vault[key];
      } else {
        r := func(args);
        vault := vault[key := r];
        StoredValid(old(vault), vault, func, args, r);
      }
    }
  }

  /** Storing `func(args)` under the key of `args` keeps every entry right, because keys are injective. */
  lemma StoredValid(before: map<string, int>, after: map<string, int>, func: seq<int> --> int, args: seq<int>, r: int)
    requires forall a {:trigger Key(a)} :: Key(a) in before ==> func.requires(a) && before[Key(a)] == func(a)
    requires func.requires(args) && r == func(args) && after == before[Key(args) := r]
    ensures forall a {:trigger Key(a)} :: Key(a) in after ==> func.requires(a) && after[Key(a)] == func(a)
  {
    forall a | Key(a) in after
      ensures func.requires(a) && after[Key(a)] == func(a)
    {
      if Key(a) == Key(args) {
        KeyInjective(a, args);
      }
    }
  }

  /** Different arguments never share a key. */
  lemma KeyDistinct(a: seq<int>, b: seq<int>)
    requires a != b
    ensures Key(a) != Key(b)
  {
    if Key(a) == Key(b) {
      KeyInjective(a, b);
    }
  }

  /** A vault only grows: no key is removed and no stored result changes. */
  predicate Grows(before: map<string, int>, after: map<string, int>) {
    forall k :: k in before ==> k in after && after[k] == before[k]
  }

  // ----- foo: memo around countcalls around n_ary(+) -----

  /** `foo`: the cache sits outside the counter, so only calls that miss the cache reach the counter. */
  class Foo {
    var vault: map<string, int>
    const counter: CountCalls

    ghost predicate Valid()
      reads this
    {
      forall args {:trigger Key(args)} :: Key(args) in vault ==> counter.func.requires(args) && vault[Key(args)] == counter.func(args)
    }

    constructor ()
      ensures fresh(counter) && counter.func == AddAll && counter.calls == 0
      ensures vault == map[] && Valid()
    {
      counter := new CountCalls(AddAll);
      vault := map[];
    }

    /** `foo(*args)`: the sum of the arguments; the counter rises exactly when the key is new. */
    method Call(args: seq<int>) returns (r: int)
      requires Valid() && counter.func.requires(args)
      modifies this, counter
      ensures Valid()
      ensures r == counter.func(args)
      ensures Key(args) in old(vault) ==> vault == old(vault) && counter.calls == old(counter.calls)
      ensures Key(args) !in old(vault) ==> vault == old(vault)[Key(args) := r] && counter.calls == old(counter.calls) + 1
    {
      var key := Key(args);
      if key in vault {
        r := vault[key];
      } else {
        r := counter.Call(args);
        vault := vault[key := r];
        StoredValid(old(vault), vault, counter.func, args, r);
      }
    }
  }

  // ----- bar: countcalls around memo around n_ary(*) -----

  /** `bar`: the counter sits outside the cache, so every call is counted, hit or miss. */
  class Bar {
    var calls: nat
    const cache: Memo

    ghost predicate Valid()
      reads this, cache
    {
      cache.Valid()
    }

    constructor ()
      ensures fresh(cache) && cache.func == MulAll && cache.vault == map[]
      ensures calls == 0 && Valid()
    {
      cache := new Memo(MulAll);
      calls := 0;
    }

    /** `bar(*args)`: the product of the arguments; the counter rises on every call. */
    method Call(args: seq<int>) returns (r: int)
      requires Valid() && cache.func.requires(args)
      modifies this, cache
      ensures Valid()
      ensures r == cache.func(args)
      ensures calls == old(calls) + 1
      ensures Key(args) in old(cache.vault) ==> cache.vault == old(cache.vault)
      ensures Key(args) !in old(cache.vault) ==> cache.vault == old(cache.vault)[Key(args) := r]
    {
      calls := calls + 1;
      r := cache.Call(args);
    }
  }

  // ----- fib: countcalls around trace("####") around memo -----

  /** The recurrence `fib` computes: 1 up to 1, otherwise the sum of the two before. */
  function FibValue(n: int): (r: int)
    ensures r >= 1
    decreases if n < 0 then 0 else n
  {
    if n <= 1 then 1 else FibValue(n - 1) + FibValue(n - 2)
  }

  /** What `trace` prints, before rendering: entry into a call and exit with its result, at an indent depth. */
  datatype Event = Enter(depth: int, arg: int) | Exit(depth: int, arg: int, result: int)

  /** `prefix * count`, which is empty for a count of zero or less. */
  function Indent(prefix: string, count: int): string
    decreases if count < 0 then 0 else count
  {
    if count <= 0 then "" else prefix + Indent(prefix, count - 1)
  }

  /** The indent is `count` copies of `prefix`: its length, and how the copies add up. */
  lemma IndentShape(prefix: string, a: nat, b: nat)
    ensures |Indent(prefix, a)| == a * |prefix|
    ensures Indent(prefix, a + b) == Indent(prefix, a) + Indent(prefix, b)
  {
    IndentLength(prefix, a);
    IndentAdd(prefix, a, b);
  }

  lemma {:induction false} IndentLength(prefix: string, a: nat)
    ensures |Indent(prefix, a)| == a * |prefix|
    decreases a
  {
    if a > 0 {
      IndentLength(prefix, a - 1);
      assert (a - 1) * |prefix| + |prefix| == a * |prefix|;
    }
  }

  lemma {:induction false} IndentAdd(prefix: string, a: nat, b: nat)
    ensures Indent(prefix, a + b) == Indent(prefix, a) + Indent(prefix, b)
    decreases a
  {
    if a > 0 {
      IndentAdd(prefix, a - 1, b);
      assert a + b - 1 == (a - 1) + b;
      ConcatAssoc(prefix, Indent(prefix, a - 1), Indent(prefix, b));
    }
  }

  /** One printed line of `trace` around `fib`: `-->fib(n)` on entry, `-->fib(n) == r` on exit. */
  function Line(prefix: string, e: Event): string {
    Indent(prefix, e.depth) + Text(e)
  }

  /** A line after its indent; `fib` takes one argument, so its `","`-joined argument list is `str(n)`. */
  function Text(e: Event): string {
    match e
    case Enter(_, n) => "-->fib(" + Str(n) + ")"
    case Exit(_, n, r) => "-->fib(" + Str(n) + ") == " + Str(r)
  }

  /** Every printed line starts with its indent, `depth` copies of the prefix. */
  lemma LineIndent(prefix: string, e: Event)
    requires e.depth >= 0
    ensures var k := e.depth * |prefix|;
      |Line(prefix, e)| >= k && Line(prefix, e)[..k] == Indent(prefix, e.depth)
  {
    IndentShape(prefix, e.depth, 0);
    PrefixOf(Indent(prefix, e.depth), Text(e));
  }

  lemma PrefixOf(a: string, b: string)
    ensures (a + b)[..|a|] == a
  {
  }

  /** What a call does to the state: how many calls it counts, what is cached after it, what it prints. */
  datatype Run = Run(calls: nat, seen: set<int>, events: seq<Event>)

  function Rank(n: int): nat { if n < 0 then 0 else n }

  /**
   * Reference run of the decorated `fib(n)` entered with `count == depth` and the arguments in `seen`
   * cached: the `countcalls` layer counts one call, the `trace` layer prints an entry line at `depth`,
   * runs the cache layer one level deeper and prints an exit line at `depth` again.
   */
  function CallRun(n: int, seen: set<int>, depth: int): Run
    decreases Rank(n), 2
  {
    var c := CacheRun(n, seen, depth + 1);
    Run(1 + c.calls, c.seen, [Enter(depth, n)] + c.events + [Exit(depth, n, FibValue(n))])
  }

  /** The `memo` layer: nothing happens on a hit; a miss runs the body and caches `n`. */
  function CacheRun(n: int, seen: set<int>, depth: int): Run
    decreases Rank(n), 1
  {
    if n in seen then Run(0, seen, [])
    else
      var b := BodyRun(n, seen, depth);
      Run(b.calls, b.seen + {n}, b.events)
  }

  /** The body: nothing for `n <= 1`, otherwise the whole decorated `fib(n - 1)`, then `fib(n - 2)`. */
  function BodyRun(n: int, seen: set<int>, depth: int): Run
    decreases Rank(n), 0
  {
    if n <= 1 then Run(0, seen, [])
    else
      var a := CallRun(n - 1, seen, depth);
      var b := CallRun(n - 2, a.seen, depth);
      Run(a.calls + b.calls, b.seen, a.events + b.events)
  }

  /** Every event in `es` is at depth `d` or deeper. */
  predicate Deeper(es: seq<Event>, d: int) {
    forall i :: 0 <= i < |es| ==> es[i].depth >= d
  }

  /**
   * Each call prints one entry and one exit line at the caller's depth, enclosing every other line
   * it causes, all of them deeper; afterwards `n` is cached and nothing cached before is lost.
   */
  lemma {:induction false} CallShape(n: int, seen: set<int>, depth: int)
    ensures var run := CallRun(n, seen, depth);
      && |run.events| == 2 * run.calls
      && run.events[0] == Enter(depth, n)
      && run.events[|run.events| - 1] == Exit(depth, n, FibValue(n))
      && (forall i :: 0 < i < |run.events| - 1 ==> run.events[i].depth > depth)
      && Deeper(run.events, depth)
      && seen + {n} <= run.seen
    decreases Rank(n), 2
  {
    var c := CacheRun(n, seen, depth + 1);
    CacheShape(n, seen, depth + 1);
    Wrapped(Enter(depth, n), c.events, Exit(depth, n, FibValue(n)), depth);
  }

  lemma Wrapped(x: Event, c: seq<Event>, y: Event, d: int)
    requires x.depth == d && y.depth == d && Deeper(c, d + 1)
    ensures var es := [x] + c + [y];
      && es[0] == x && es[|es| - 1] == y
      && (forall i :: 0 < i < |es| - 1 ==> es[i].depth > d)
      && Deeper(es, d)
  {
    var es := [x] + c + [y];
    forall i | 0 < i < |es| - 1
      ensures es[i].depth > d
    {
      assert es[i] == c[i - 1];
    }
  }

  lemma DeeperAppend(a: seq<Event>, b: seq<Event>, d: int)
    requires Deeper(a, d) && Deeper(b, d)
    ensures Deeper(a + b, d)
  {
    forall i | 0 <= i < |a + b|
      ensures (a + b)[i].depth >= d
    {
      if i >= |a| {
        assert (a + b)[i] == b[i - |a|];
      }
    }
  }

  lemma {:induction false} CacheShape(n: int, seen: set<int>, depth: int)
    ensures var c := CacheRun(n, seen, depth);
      && |c.events| == 2 * c.calls
      && Deeper(c.events, depth)
      && seen + {n} <= c.seen
    decreases Rank(n), 1
  {
    if n !in seen {
      BodyShape(n, seen, depth);
    }
  }

  lemma {:induction false} BodyShape(n: int, seen: set<int>, depth: int)
    ensures var b := BodyRun(n, seen, depth);
      && |b.events| == 2 * b.calls
      && Deeper(b.events, depth)
      && seen <= b.seen
    decreases Rank(n), 0
  {
    if n > 1 {
      var a := CallRun(n - 1, seen, depth);
      var b := CallRun(n - 2, a.seen, depth);
      CallShape(n - 1, seen, depth);
      CallShape(n - 2, a.seen, depth);
      DeeperAppend(a.events, b.events, depth);
    }
  }

  /** With an empty cache, `fib(n)` for `n >= 2` is counted `2n - 1` times in all and caches `0..n`. */
  lemma {:induction false} CallRunFresh(n: int, depth: int)
    requires n >= 2
    ensures CallRun(n, {}, depth).calls == 2 * n - 1
    ensures forall m :: m in CallRun(n, {}, depth).seen <==> 0 <= m <= n
    decreases n
  {
    var a := CallRun(n - 1, {}, depth + 1);
    var b := CallRun(n - 2, a.seen, depth + 1);
    if n == 2 {
      assert CacheRun(1, {}, depth + 2) == Run(0, {1}, []);
      assert a.calls == 1 && a.seen == {1};
      assert CacheRun(0, {1}, depth + 2) == Run(0, {0, 1}, []);
      assert b.calls == 1 && b.seen == {0, 1};
    } else {
      CallRunFresh(n - 1, depth + 1);
      assert n - 2 in a.seen;
      assert CacheRun(n - 2, a.seen, depth + 2) == Run(0, a.seen, []);
      assert b.calls == 1 && b.seen == a.seen;
    }
    var body := BodyRun(n, {}, depth + 1);
    assert body.calls == a.calls + b.calls && body.seen == b.seen;
    var c := CacheRun(n, {}, depth + 1);
    assert c.calls == body.calls && c.seen == body.seen + {n};
    assert CallRun(n, {}, depth).calls == 1 + c.calls;
    assert CallRun(n, {}, depth).seen == c.seen;
  }

  /**
   * `fib` as decorated: `countcalls` around `trace("####")` around `memo` around the body, one
   * method per layer; the object holds the counter's `calls`, the trace's `count` and the lines it
   * has printed, and the cache.
   */
  class Fib {
    var calls: nat
    var count: int
    var events: seq<Event>
    var vault: map<string, int>
    ghost var seen: set<int>

    /** The cache holds exactly the arguments in `seen`, each with the value of the recurrence. */
    ghost predicate Valid()
      reads this
    {
      && (forall m {:trigger Key([m])} :: Key([m]) in vault ==> m in seen)
      && (forall m :: m in seen ==> Key([m]) in vault && vault[Key([m])] == FibValue(m))
    }

    constructor ()
      ensures calls == 0 && count == 0 && events == [] && vault == map[] && seen == {}
      ensures Valid()
    {
      calls := 0;
      count := 0;
      events := [];
      vault := map[];
      seen := {};
    }

    /**
     * `fib(n)`: the value of the recurrence, with the counter, the cache and the printed lines as the
     * reference run says, and `count` back where it was.
     */
    method Call(n: int) returns (r: int)
      requires Valid()
      modifies this
      ensures Valid()
      ensures r == FibValue(n)
      ensures count == old(count)
      ensures Grows(old(vault), vault)
      ensures var run := CallRun(n, old(seen), old(count));
        && calls == old(calls) + run.calls
        && seen == run.seen
        && events == old(events) + run.events
      decreases Rank(n), 3
    {
      calls := calls + 1;
      r := Traced(n);
    }

    /** The `trace` layer: an entry line, `count` up by one around the cache layer, an exit line. */
    method Traced(n: int) returns (r: int)
      requires Valid()
      modifies this
      ensures Valid()
      ensures r == FibValue(n)
      ensures count == old(count)
      ensures Grows(old(vault), vault)
      ensures var c := CacheRun(n, old(seen), old(count) + 1);
        && calls == old(calls) + c.calls
        && seen == c.seen
        && events == old(events) + ([Enter(old(count), n)] + c.events + [Exit(old(count), n, r)])
      decreases Rank(n), 2
    {
      ghost var e0 := events;
      events := events + [Enter(count, n)];
      count := count + 1;
      r := Cached(n);
      count := count - 1;
      ghost var c := CacheRun(n, old(seen), old(count) + 1);
      events := events + [Exit(count, n, r)];
      EventsJoin(e0, Enter(old(count), n), c.events, Exit(count, n, r));
    }

    /** The `memo` layer: a stored value on a hit; on a miss the body's value, stored under the key of `(n,)`. */
    method Cached(n: int) returns (r: int)
      requires Valid()
      modifies this
      ensures Valid()
      ensures r == FibValue(n)
      ensures count == old(count)
      ensures Grows(old(vault), vault)
      ensures var c := CacheRun(n, old(seen), old(count));
        && calls == old(calls) + c.calls
        && seen == c.seen
        && events == old(events) + c.events
      decreases Rank(n), 1
    {
      var key := Key([n]);
      if key in vault {
        r := vault[key];
      } else {
        r := Body(n);
        FibStore(vault, seen, n, r);
        GrowsStore(old(vault), vault, key, r);
        vault := vault[key := r];
        seen := seen + {n};
      }
    }

    /** The undecorated body: 1 up to 1, otherwise `fib(n - 1) + fib(n - 2)` through the decorated `fib`. */
    method Body(n: int) returns (r: int)
      requires Valid()
      modifies this
      ensures Valid()
      ensures r == FibValue(n)
      ensures count == old(count)
      ensures Grows(old(vault), vault)
      ensures var b := BodyRun(n, old(seen), old(count));
        && calls == old(calls) + b.calls
        && seen == b.seen
        && events == old(events) + b.events
      decreases Rank(n), 0
    {
      if n <= 1 {
        r := 1;
      } else {
        ghost var v0, e0 := vault, events;
        var a := Call(n - 1);
        ghost var ra := CallRun(n - 1, old(seen), old(count));
        ghost var v1 := vault;
        var b := Call(n - 2);
        ghost var rb := CallRun(n - 2, ra.seen, old(count));
        r := a + b;
        GrowsTrans(v0, v1, vault);
        EventsAppend(e0, ra.events, rb.events);
      }
    }
  }

  lemma EventsJoin(e0: seq<Event>, x: Event, c: seq<Event>, y: Event)
    ensures e0 + [x] + c + [y] == e0 + ([x] + c + [y])
  {
  }

  lemma EventsAppend(e0: seq<Event>, a: seq<Event>, b: seq<Event>)
    ensures e0 + a + b == e0 + (a + b)
  {
  }

  lemma GrowsTrans(a: map<string, int>, b: map<string, int>, c: map<string, int>)
    requires Grows(a, b) && Grows(b, c)
    ensures Grows(a, c)
  {
  }

  lemma GrowsStore(a: map<string, int>, b: map<string, int>, key: string, r: int)
    requires Grows(a, b) && key !in a
    ensures Grows(a, b[key := r])
  {
  }

  /** Storing the value for `n` keeps the cache matching `seen + {n}`. */
  lemma FibStore(vault: map<string, int>, seen: set<int>, n: int, r: int)
    requires forall m {:trigger Key([m])} :: Key([m]) in vault ==> m in seen
    requires forall m :: m in seen ==> Key([m]) in vault && vault[Key([m])] == FibValue(m)
    requires r == FibValue(n)
    ensures var after := vault[Key([n]) := r];
      && (forall m {:trigger Key([m])} :: Key([m]) in after ==> m in seen + {n})
      && (forall m :: m in seen + {n} ==> Key([m]) in after && after[Key([m])] == FibValue(m))
  {
    var after := vault[Key([n]) := r];
    forall m | Key([m]) in after
      ensures m in seen + {n}
    {
      if Key([m]) == Key([n]) {
        KeyInjective([m], [n]);
      }
    }
    forall m | m in seen + {n}
      ensures Key([m]) in after && after[Key([m])] == FibValue(m)
    {
      if m != n {
        KeyDistinct([m], [n]);
      }
    }
  }

  /** A call answered by the cache: counted and traced, nothing else. */
  lemma CallRunHit(n: int, seen: set<int>, depth: int)
    requires n in seen
    ensures CallRun(n, seen, depth) == Run(1, seen, [Enter(depth, n), Exit(depth, n, FibValue(n))])
  {
    assert CacheRun(n, seen, depth + 1) == Run(0, seen, []);
  }

  /** A base case that misses the cache: counted, traced and cached. */
  lemma CallRunBase(n: int, seen: set<int>, depth: int)
    requires n <= 1 && n !in seen
    ensures CallRun(n, seen, depth) == Run(1, seen + {n}, [Enter(depth, n), Exit(depth, n, 1)])
  {
    assert BodyRun(n, seen, depth + 1) == Run(0, seen, []);
  }

  /** A miss for `n > 1`: the two recursive runs one level deeper, between the entry and exit lines. */
  lemma CallRunMiss(n: int, seen: set<int>, depth: int, a: Run, b: Run)
    requires n > 1 && n !in seen
    requires a == CallRun(n - 1, seen, depth + 1) && b == CallRun(n - 2, a.seen, depth + 1)
    ensures CallRun(n, seen, depth)
      == Run(1 + a.calls + b.calls, b.seen + {n}, [Enter(depth, n)] + (a.events + b.events) + [Exit(depth, n, FibValue(n))])
  {
    assert BodyRun(n, seen, depth + 1) == Run(a.calls + b.calls, b.seen, a.events + b.events);
  }

  /** `fib(3)` on a fresh cache: value 3, five counted calls, and the ten lines `trace` prints. */
  lemma FibThree(empty: set<int>, d: int)
    requires empty == {}
    ensures FibValue(3) == 3
    ensures CallRun(3, empty, d) == Run(5, {0, 1, 2, 3}, [
      Enter(d, 3), Enter(d + 1, 2), Enter(d + 2, 1), Exit(d + 2, 1, 1), Enter(d + 2, 0), Exit(d + 2, 0, 1),
      Exit(d + 1, 2, 2), Enter(d + 1, 1), Exit(d + 1, 1, 1), Exit(d, 3, 3)])
  {
    var two := CallRun(2, {}, d + 1);
    FibTwo(d + 1);
    var one := CallRun(1, two.seen, d + 1);
    CallRunHit(1, two.seen, d + 1);
    CallRunMiss(3, {}, d, two, one);
  }

  /** `fib(3)` called from the top level, where `count` is 0. */
  lemma FibThreeFromTop(empty: set<int>)
    requires empty == {}
    ensures CallRun(3, empty, 0).calls == 5
    ensures CallRun(3, empty, 0).events == [Enter(0, 3), Enter(1, 2), Enter(2, 1), Exit(2, 1, 1), Enter(2, 0), Exit(2, 0, 1),
                      Exit(1, 2, 2), Enter(1, 1), Exit(1, 1, 1), Exit(0, 3, 3)]
  {
    FibThree(empty, 0);
  }

  /** The inner `fib(2)` of `fib(3)` on a fresh cache. */
  lemma FibTwo(d: int)
    ensures CallRun(2, {}, d) == Run(3, {0, 1, 2},
      [Enter(d, 2), Enter(d + 1, 1), Exit(d + 1, 1, 1), Enter(d + 1, 0), Exit(d + 1, 0, 1), Exit(d, 2, 2)])
  {
    var one := CallRun(1, {}, d + 1);
    CallRunBase(1, {}, d + 1);
    var zero := CallRun(0, one.seen, d + 1);
    CallRunBase(0, one.seen, d + 1);
    CallRunMiss(2, {}, d, one, zero);
  }

  /** `main`'s calls of `foo`: `foo(4, 3)`, `foo(4, 3, 2)`, `foo(4, 3)`, then `foo.calls`. */
  method FooSession() returns (results: seq<int>, calls: nat)
    ensures results == [7, 9, 7] && calls == 2
  {
    var xs, ys := [4, 3], [4, 3, 2];
    NAryExamples();
    KeyDistinct(xs, ys);
    var foo := new Foo();
    var r1 := foo.Call(xs);
    var r2 := foo.Call(ys);
    var r3 := foo.Call(xs);
    results, calls := [r1, r2, r3], foo.counter.calls;
  }

  /** `main`'s calls of `bar`: `bar(4, 3)`, `bar(4, 3, 2)`, `bar(4, 3, 2, 1)`, then `bar.calls`. */
  method BarSession() returns (results: seq<int>, calls: nat)
    ensures results == [12, 24, 24] && calls == 3
  {
    var xs, ys, zs := [4, 3], [4, 3, 2], [4, 3, 2, 1];
    NAryExamples();
    var bar := new Bar();
    var r1 := bar.Call(xs);
    var r2 := bar.Call(ys);
    var r3 := bar.Call(zs);
    results, calls := [r1, r2, r3], bar.calls;
  }

  /** `main`'s `fib(3)`, then `fib.calls`, with the events behind the lines `trace` prints. */
  method FibSession() returns (result: int, calls: nat, trace: seq<Event>)
    ensures result == 3 && calls == 5
    ensures trace == [Enter(0, 3), Enter(1, 2), Enter(2, 1), Exit(2, 1, 1), Enter(2, 0), Exit(2, 0, 1),
                      Exit(1, 2, 2), Enter(1, 1), Exit(1, 1, 1), Exit(0, 3, 3)]
  {
    var fib := new Fib();
    FibThreeFromTop(fib.seen);
    result := fib.Call(3);
    calls, trace := fib.calls, fib.events;
  }
}
