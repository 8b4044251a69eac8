// The environment builder of the Linux spawn (native/src/process_linux.rs): an ordered map filled
// from the inherited variables and the caller's KEY=VALUE items, printed as entries for exec.
module Environment {
  import opened Base

  const EQUALS: byte := '=' as int
  const NUL: byte := 0

  datatype Mode = Inherit | Overlay | Replace | Clear

  datatype EnvError = MissingSeparator | EmptyKey | ContainsNul

  datatype Result<+T> = Success(value: T) | Failure(error: EnvError)

  datatype Binding = Binding(key: bytes, value: bytes)

  // ---------------------------------------------------------------- the ordered map

  // OsString ordering: bytewise lexicographic.
  predicate Less(a: bytes, b: bytes) {
    b != [] && (a == [] || a[0] < b[0] || (a[0] == b[0] && Less(a[1..], b[1..])))
  }

  lemma {:induction false} LessIsTotal(a: bytes, b: bytes)
    ensures a == b || Less(a, b) || Less(b, a)
    ensures !(Less(a, b) && Less(b, a)) && !Less(a, a)
  {
    if a != [] && b != [] {
      LessIsTotal(a[1..], b[1..]);
      LessIsTotal(a[1..], a[1..]);
      assert a == [a[0]] + a[1..] && b == [b[0]] + b[1..];
    } else if a != [] {
      LessIsTotal(a[1..], a[1..]);
    }
  }

  lemma {:induction false} LessIsTransitive(a: bytes, b: bytes, c: bytes)
    requires Less(a, b) && Less(b, c)
    ensures Less(a, c)
  {
    if a != [] && a[0] == b[0] == c[0] {
      LessIsTransitive(a[1..], b[1..], c[1..]);
    }
  }

  // It compares the first bytes that differ, and puts a proper prefix first.
  lemma {:induction false} LessIsLexicographic(a: bytes, b: bytes, k: nat)
    requires k <= |a| && k <= |b| && a[..k] == b[..k]
    requires k < |a| && k < |b| ==> a[k] != b[k]
    ensures Less(a, b) <==> k < |b| && (k == |a| || a[k] < b[k])
  {
    if k > 0 {
      assert a[0] == a[..k][0] == b[..k][0] == b[0];
      assert a[1..][..k - 1] == a[..k][1..] && b[1..][..k - 1] == b[..k][1..];
      LessIsLexicographic(a[1..], b[1..], k - 1);
    }
  }

  predicate Ordered(env: seq<Binding>) {
    forall i, j :: 0 <= i < j < |env| ==> Less(env[i].key, env[j].key)
  }

  function Lookup(env: seq<Binding>, key: bytes): Option<bytes> {
    if env == [] then None
    else if env[0].key == key then Some(env[0].value)
    else Lookup(env[1..], key)
  }

  // BTreeMap::insert
  function Inserted(env: seq<Binding>, b: Binding): seq<Binding> {
    if env == [] then [b]
    else if env[0].key == b.key then [b] + env[1..]
    else if Less(b.key, env[0].key) then [b] + env
    else [env[0]] + Inserted(env[1..], b)
  }

  lemma {:induction false} InsertBinds(env: seq<Binding>, b: Binding, key: bytes)
    ensures Lookup(Inserted(env, b), key) == if key == b.key then Some(b.value) else Lookup(env, key)
  {
    if env != [] && env[0].key != b.key && !Less(b.key, env[0].key) {
      InsertBinds(env[1..], b, key);
    }
  }

  lemma {:induction false} InsertKeepsOrder(env: seq<Binding>, b: Binding)
    requires Ordered(env)
    ensures Ordered(Inserted(env, b))
    ensures forall e :: e in Inserted(env, b) ==> e == b || e in env
  {
    if env != [] {
      var tail := env[1..];
      assert Ordered(tail);
      assert forall e :: e in tail ==> Less(env[0].key, e.key);
      if env[0].key != b.key {
        LessIsTotal(env[0].key, b.key);
        if Less(b.key, env[0].key) {
          forall e | e in env
            ensures Less(b.key, e.key)
          {
            if e != env[0] { LessIsTransitive(b.key, env[0].key, e.key); }
          }
        } else {
          InsertKeepsOrder(tail, b);
        }
      }
    }
  }

  // ---------------------------------------------------------------- items

  function FirstEquals(item: bytes): Option<nat> {
    if item == [] then None
    else if item[0] == EQUALS then Some(0)
    else match FirstEquals(item[1..])
      case None => None
      case Some(i) => Some(i + 1)
  }

  lemma {:induction false} FirstEqualsIsFirst(item: bytes)
    ensures FirstEquals(item).None? <==> EQUALS !in item
    ensures FirstEquals(item).Some? ==>
              var i := FirstEquals(item).value; i < |item| && item[i] == EQUALS && EQUALS !in item[..i]
  {
    if item != [] && item[0] != EQUALS {
      FirstEqualsIsFirst(item[1..]);
      assert item == [item[0]] + item[1..];
      if FirstEquals(item).Some? {
        var i := FirstEquals(item).value;
        assert item[..i] == [item[0]] + item[1..][..i - 1];
      }
    }
  }

  function Parsed(item: bytes): Result<Binding> {
    FirstEqualsIsFirst(item);
    match FirstEquals(item)
    case None => Failure(MissingSeparator)
    case Some(i) => if i == 0 then Failure(EmptyKey) else Success(Binding(item[..i], item[i + 1..]))
  }

  // An item is cut at its first '=': without one it has no separator, with one at its head no key.
  lemma ItemIsCutAtSeparator(item: bytes)
    ensures Parsed(item) == Failure(MissingSeparator) <==> EQUALS !in item
    ensures Parsed(item) == Failure(EmptyKey) <==> item != [] && item[0] == EQUALS
    ensures Parsed(item).Success? ==>
              var b := Parsed(item).value; b.key != [] && EQUALS !in b.key && item == b.key + [EQUALS] + b.value
    ensures Parsed(item) != Failure(ContainsNul)
  {
    FirstEqualsIsFirst(item);
    if FirstEquals(item).Some? {
      var i := FirstEquals(item).value;
      assert item == item[..i] + [item[i]] + item[i + 1..];
      assert i > 0 ==> item[..i][0] == item[0];
    }
  }

  function Printed(b: Binding): bytes {
    b.key + [EQUALS] + b.value
  }

  lemma {:induction false} PrintedSplits(key: bytes, rest: bytes)
    ensures EQUALS !in key ==> FirstEquals(key + [EQUALS] + rest) == Some(|key|)
    ensures EQUALS in key ==> FirstEquals(key + [EQUALS] + rest) == FirstEquals(key) && FirstEquals(key).Some?
                              && FirstEquals(key).value < |key|
  {
    if key != [] {
      PrintedSplits(key[1..], rest);
      assert (key + [EQUALS] + rest)[1..] == key[1..] + [EQUALS] + rest;
      assert key == [key[0]] + key[1..];
    }
  }

  // Reading an entry back at its first '=' recovers the binding exactly when its key has none.
  lemma EntryRecoversIff(b: Binding)
    ensures Parsed(Printed(b)) == Success(b) <==> Plain(b.key)
  {
    PrintedSplits(b.key, b.value);
    FirstEqualsIsFirst(Printed(b));
    if EQUALS !in b.key {
      assert Printed(b)[..|b.key|] == b.key;
      assert Printed(b)[|b.key| + 1..] == b.value;
    }
  }

  // ---------------------------------------------------------------- the builder

  function InsertedAll(env: seq<Binding>, bs: seq<Binding>): seq<Binding> {
    if bs == [] then env else Inserted(InsertedAll(env, bs[..|bs| - 1]), bs[|bs| - 1])
  }

  // All items in order, or the error of the first bad one.
  function ParsedAll(items: seq<bytes>): Result<seq<Binding>> {
    if items == [] then Success([])
    else
      var last := |items| - 1;
      match ParsedAll(items[..last])
      case Failure(error) => Failure(error)
      case Success(bs) =>
        match Parsed(items[last])
        case Failure(error) => Failure(error)
        case Success(b) => Success(bs + [b])
  }

  function PrintedAll(env: seq<Binding>): Result<seq<bytes>> {
    if env == [] then Success([])
    else
      var last := |env| - 1;
      match PrintedAll(env[..last])
      case Failure(error) => Failure(error)
      case Success(entries) =>
        var entry := Printed(env[last]);
        if NUL in entry then Failure(ContainsNul) else Success(entries + [entry])
  }

  predicate UsesInherited(mode: Mode) {
    mode.Inherit? || mode.Overlay?
  }

  predicate UsesItems(mode: Mode) {
    mode.Overlay? || mode.Replace?
  }

  // What the inherited variables and the items say, in the order in which they are inserted.
  function Bindings(mode: Mode, inherited: seq<Binding>, items: seq<bytes>): Result<seq<Binding>> {
    var base := if UsesInherited(mode) then inherited else [];
    if !UsesItems(mode) then Success(base)
    else match ParsedAll(items)
      case Failure(error) => Failure(error)
      case Success(bs) => Success(base + bs)
  }

  function Environment(mode: Mode, inherited: seq<Binding>, items: seq<bytes>): Result<seq<bytes>> {
    match Bindings(mode, inherited, items)
    case Failure(error) => Failure(error)
    case Success(bs) => PrintedAll(InsertedAll([], bs))
  }

  lemma {:induction false} InsertedAllAppend(env: seq<Binding>, xs: seq<Binding>, ys: seq<Binding>)
    ensures InsertedAll(env, xs + ys) == InsertedAll(InsertedAll(env, xs), ys)
  {
    if ys == [] {
      assert xs + ys == xs;
    } else {
      var last := |ys| - 1;
      InsertedAllAppend(env, xs, ys[..last]);
      var both := xs + ys;
      assert both[..|both| - 1] == xs + ys[..last] && both[|both| - 1] == ys[last];
    }
  }

  // The three loops of `environment`: the inherited variables, the items, the printing.
  method InsertInherited(inherited: seq<Binding>) returns (env: seq<Binding>)
    ensures env == InsertedAll([], inherited)
  {
    env := [];
    for i := 0 to |inherited|
      invariant env == InsertedAll([], inherited[..i])
    {
      assert inherited[..i + 1][..i] == inherited[..i];
      env := Inserted(env, inherited[i]);
    }
    assert inherited[..|inherited|] == inherited;
  }

  method InsertItems(start: seq<Binding>, items: seq<bytes>) returns (r: Result<seq<Binding>>)
    ensures ParsedAll(items).Failure? ==> r == Failure(ParsedAll(items).error)
    ensures ParsedAll(items).Success? ==> r == Success(InsertedAll(start, ParsedAll(items).value))
  {
    var env := start;
    ghost var parsed: seq<Binding> := [];
    for i := 0 to |items|
      invariant ParsedAll(items[..i]) == Success(parsed)
      invariant env == InsertedAll(start, parsed)
    {
      assert items[..i + 1][..i] == items[..i];
      match Parsed(items[i]) {
        case Failure(error) =>
          FirstErrorStays(items, i + 1);
          return Failure(error);
        case Success(b) =>
          assert (parsed + [b])[..|parsed|] == parsed;
          env := Inserted(env, b);
          parsed := parsed + [b];
      }
    }
    assert items[..|items|] == items;
    r := Success(env);
  }

  method PrintEntries(env: seq<Binding>) returns (r: Result<seq<bytes>>)
    ensures r == PrintedAll(env)
  {
    var entries: seq<bytes> := [];
    for i := 0 to |env|
      invariant PrintedAll(env[..i]) == Success(entries)
    {
      assert env[..i + 1][..i] == env[..i];
      var entry := Printed(env[i]);
      if NUL in entry {
        NulStays(env, i + 1);
        return Failure(ContainsNul);
      }
      entries := entries + [entry];
    }
    assert env[..|env|] == env;
    r := Success(entries);
  }

  method BuildEnvironment(mode: Mode, inherited: seq<Binding>, items: seq<bytes>) returns (r: Result<seq<bytes>>)
    ensures r == Environment(mode, inherited, items)
  {
    var env := [];
    ghost var base := [];
    if UsesInherited(mode) {
      env := InsertInherited(inherited);
      base := inherited;
    }
    if UsesItems(mode) {
      var inserted := InsertItems(env, items);
      if inserted.Failure? {
        return Failure(inserted.error);
      }
      InsertedAllAppend([], base, ParsedAll(items).value);
      env := inserted.value;
    }
    r := PrintEntries(env);
  }

  lemma {:induction false} FirstErrorStays(items: seq<bytes>, n: nat)
    requires n <= |items| && ParsedAll(items[..n]).Failure?
    ensures ParsedAll(items) == ParsedAll(items[..n])
  {
    if n == |items| {
      assert items[..n] == items;
    } else {
      assert items[..|items| - 1][..n] == items[..n];
      FirstErrorStays(items[..|items| - 1], n);
    }
  }

  lemma {:induction false} NulStays(env: seq<Binding>, n: nat)
    requires n <= |env| && PrintedAll(env[..n]).Failure?
    ensures PrintedAll(env) == Failure(ContainsNul)
  {
    if n == |env| {
      assert env[..n] == env;
      PrintedAllTells(env);
    } else {
      assert env[..|env| - 1][..n] == env[..n];
      NulStays(env[..|env| - 1], n);
    }
  }

  // ---------------------------------------------------------------- what the result denotes

  // The value a key ends up with: that of the last binding for it.
  function LastValue(bs: seq<Binding>, key: bytes): Option<bytes> {
    if bs == [] then None
    else if bs[|bs| - 1].key == key then Some(bs[|bs| - 1].value)
    else LastValue(bs[..|bs| - 1], key)
  }

  lemma {:induction false} LastWins(bs: seq<Binding>, key: bytes)
    ensures Ordered(InsertedAll([], bs))
    ensures Lookup(InsertedAll([], bs), key) == LastValue(bs, key)
  {
    if bs != [] {
      var last := |bs| - 1;
      LastWins(bs[..last], key);
      InsertBinds(InsertedAll([], bs[..last]), bs[last], key);
      InsertKeepsOrder(InsertedAll([], bs[..last]), bs[last]);
    }
  }

  lemma {:induction false} LastValueAppend(xs: seq<Binding>, ys: seq<Binding>, key: bytes)
    ensures LastValue(xs + ys, key) == if LastValue(ys, key).Some? then LastValue(ys, key) else LastValue(xs, key)
  {
    if ys == [] {
      assert xs + ys == xs;
    } else {
      var last := |ys| - 1;
      LastValueAppend(xs, ys[..last], key);
      assert (xs + ys)[..|xs| + last] == xs + ys[..last];
    }
  }

  lemma {:induction false} PrintedAllTells(env: seq<Binding>)
    ensures PrintedAll(env).Failure? ==>
              PrintedAll(env).error == ContainsNul && exists b :: b in env && NUL in Printed(b)
    ensures PrintedAll(env).Success? ==>
              var entries := PrintedAll(env).value;
              && |entries| == |env|
              && forall i :: 0 <= i < |env| ==> entries[i] == Printed(env[i]) && NUL !in entries[i]
  {
    if env != [] {
      PrintedAllTells(env[..|env| - 1]);
      assert env[|env| - 1] in env;
    }
  }

  lemma {:induction false} ParsedAllTells(items: seq<bytes>)
    ensures ParsedAll(items).Failure? ==>
              exists i :: 0 <= i < |items| && Parsed(items[i]) == Failure(ParsedAll(items).error)
                          && ParsedAll(items[..i]).Success?
    ensures ParsedAll(items).Success? ==>
              var bs := ParsedAll(items).value;
              && |bs| == |items|
              && forall i :: 0 <= i < |items| ==> Parsed(items[i]) == Success(bs[i])
  {
    if items != [] {
      var last := |items| - 1;
      ParsedAllTells(items[..last]);
      if ParsedAll(items[..last]).Failure? {
        var i :| 0 <= i < last && Parsed(items[..last][i]) == Failure(ParsedAll(items[..last]).error)
                 && ParsedAll(items[..last][..i]).Success?;
        assert items[i] == items[..last][i] && items[..i] == items[..last][..i];
      }
    }
  }

  // The value a key should get: the last item's for it, else the last inherited one, as far as the
  // mode uses them.
  function Expected(mode: Mode, inherited: seq<Binding>, items: seq<bytes>, key: bytes): Option<bytes>
    requires UsesItems(mode) ==> ParsedAll(items).Success?
  {
    var fromItems := if UsesItems(mode) then LastValue(ParsedAll(items).value, key) else None;
    if fromItems.Some? then fromItems
    else if UsesInherited(mode) then LastValue(inherited, key)
    else None
  }

  lemma BuiltMapIsExpected(mode: Mode, inherited: seq<Binding>, items: seq<bytes>)
    requires UsesItems(mode) ==> ParsedAll(items).Success?
    ensures var env := InsertedAll([], Bindings(mode, inherited, items).value);
      Ordered(env) && forall key :: Lookup(env, key) == Expected(mode, inherited, items, key)
  {
    var bs := Bindings(mode, inherited, items).value;
    LastWins(bs, []);
    forall key
      ensures Lookup(InsertedAll([], bs), key) == Expected(mode, inherited, items, key)
    {
      LastWins(bs, key);
      if UsesItems(mode) {
        LastValueAppend(if UsesInherited(mode) then inherited else [], ParsedAll(items).value, key);
      }
    }
  }

  // A successful result lists, strictly ordered by key, the map in which an item beats an inherited
  // variable and a later binding beats an earlier one; Inherit and Clear ignore the items.
  lemma EnvironmentDenotes(mode: Mode, inherited: seq<Binding>, items: seq<bytes>)
    requires Environment(mode, inherited, items).Success?
    ensures UsesItems(mode) ==> ParsedAll(items).Success?
    ensures var entries := Environment(mode, inherited, items).value;
            var env := InsertedAll([], Bindings(mode, inherited, items).value);
      && Ordered(env)
      && |entries| == |env|
      && (forall i :: 0 <= i < |env| ==> entries[i] == Printed(env[i]))
      && (forall key :: Lookup(env, key) == Expected(mode, inherited, items, key))
  {
    BuiltMapIsExpected(mode, inherited, items);
    PrintedAllTells(InsertedAll([], Bindings(mode, inherited, items).value));
  }

  // A result that lists a map in strict key order.
  predicate Lists(r: Result<seq<bytes>>, env: seq<Binding>) {
    && r.Success?
    && Ordered(env)
    && |r.value| == |env|
    && forall i :: 0 <= i < |env| ==> r.value[i] == Printed(env[i])
  }

  // Clear starts from nothing and takes nothing.
  lemma ClearIsEmpty(inherited: seq<Binding>, items: seq<bytes>)
    ensures Environment(Clear, inherited, items) == Success([])
  {
  }

  // Inherit passes the inherited variables on, the last one for each key, whatever the items are.
  lemma InheritTakesNoItems(inherited: seq<Binding>, items: seq<bytes>, others: seq<bytes>) returns (env: seq<Binding>)
    requires Environment(Inherit, inherited, items).Success?
    ensures Environment(Inherit, inherited, items) == Environment(Inherit, inherited, others)
    ensures Lists(Environment(Inherit, inherited, items), env)
    ensures forall key :: Lookup(env, key) == LastValue(inherited, key)
  {
    EnvironmentDenotes(Inherit, inherited, items);
    env := InsertedAll([], Bindings(Inherit, inherited, items).value);
  }

  // Replace takes the items alone, the last one for each key.
  lemma ReplaceTakesItemsAlone(inherited: seq<Binding>, others: seq<Binding>, items: seq<bytes>) returns (env: seq<Binding>)
    requires Environment(Replace, inherited, items).Success?
    ensures Environment(Replace, inherited, items) == Environment(Replace, others, items)
    ensures ParsedAll(items).Success? && Lists(Environment(Replace, inherited, items), env)
    ensures forall key :: Lookup(env, key) == LastValue(ParsedAll(items).value, key)
  {
    EnvironmentDenotes(Replace, inherited, items);
    env := InsertedAll([], Bindings(Replace, inherited, items).value);
  }

  // Overlay lets the last item for a key win over the last inherited value.
  lemma OverlayPrefersItems(inherited: seq<Binding>, items: seq<bytes>) returns (env: seq<Binding>)
    requires Environment(Overlay, inherited, items).Success?
    ensures ParsedAll(items).Success? && Lists(Environment(Overlay, inherited, items), env)
    ensures forall key ::
              Lookup(env, key) == if LastValue(ParsedAll(items).value, key).Some?
                                  then LastValue(ParsedAll(items).value, key)
                                  else LastValue(inherited, key)
  {
    EnvironmentDenotes(Overlay, inherited, items);
    env := InsertedAll([], Bindings(Overlay, inherited, items).value);
  }

  // The modes that ignore the items, or the inherited variables, fail alike whatever these are.
  lemma UnusedIsIgnored(inherited: seq<Binding>, others: seq<Binding>, items: seq<bytes>, more: seq<bytes>)
    ensures Environment(Inherit, inherited, items) == Environment(Inherit, inherited, more)
    ensures Environment(Replace, inherited, items) == Environment(Replace, others, items)
  {
  }

  lemma {:induction false} LookupFinds(env: seq<Binding>, key: bytes)
    requires Ordered(env)
    ensures forall b :: b in env && b.key == key ==> Lookup(env, key) == Some(b.value)
    ensures Lookup(env, key).Some? ==> Binding(key, Lookup(env, key).value) in env
  {
    if env != [] {
      assert env == [env[0]] + env[1..];
      LookupFinds(env[1..], key);
      LessIsTotal(key, key);
    }
  }

  // The map the builder makes would need a NUL in one of its entries.
  ghost predicate HoldsNul(mode: Mode, inherited: seq<Binding>, items: seq<bytes>)
    requires UsesItems(mode) ==> ParsedAll(items).Success?
  {
    exists key :: Expected(mode, inherited, items, key).Some?
                  && (NUL in key || NUL in Expected(mode, inherited, items, key).value)
  }

  lemma NulIsHeldIff(mode: Mode, inherited: seq<Binding>, items: seq<bytes>)
    requires UsesItems(mode) ==> ParsedAll(items).Success?
    ensures var env := InsertedAll([], Bindings(mode, inherited, items).value);
      HoldsNul(mode, inherited, items) <==> exists b :: b in env && NUL in Printed(b)
  {
    var env := InsertedAll([], Bindings(mode, inherited, items).value);
    BuiltMapIsExpected(mode, inherited, items);
    forall b | b in env && NUL in Printed(b)
      ensures HoldsNul(mode, inherited, items)
    {
      LookupFinds(env, b.key);
    }
    if HoldsNul(mode, inherited, items) {
      var key :| Expected(mode, inherited, items, key).Some?
                 && (NUL in key || NUL in Expected(mode, inherited, items, key).value);
      LookupFinds(env, key);
      assert NUL in Printed(Binding(key, Expected(mode, inherited, items, key).value));
    }
  }

  lemma PrintingFailsIff(env: seq<Binding>)
    ensures PrintedAll(env).Failure? <==> exists b :: b in env && NUL in Printed(b)
    ensures PrintedAll(env).Failure? ==> PrintedAll(env).error == ContainsNul
  {
    PrintedAllTells(env);
    if PrintedAll(env).Success? {
      forall b | b in env
        ensures NUL !in Printed(b)
      {
        var i :| 0 <= i < |env| && env[i] == b;
      }
    }
  }

  predicate BadItem(items: seq<bytes>, i: nat)
    requires i < |items|
  {
    Parsed(items[i]).Failure? && forall j :: 0 <= j < i ==> Parsed(items[j]).Success?
  }

  lemma ParsingFailsIff(items: seq<bytes>)
    ensures ParsedAll(items).Failure? <==> exists i :: 0 <= i < |items| && Parsed(items[i]).Failure?
    ensures ParsedAll(items).Failure? ==>
              ParsedAll(items).error != ContainsNul
              && exists i :: 0 <= i < |items| && BadItem(items, i) && Parsed(items[i]) == Failure(ParsedAll(items).error)
  {
    ParsedAllTells(items);
    if ParsedAll(items).Failure? {
      var i :| 0 <= i < |items| && Parsed(items[i]) == Failure(ParsedAll(items).error) && ParsedAll(items[..i]).Success?;
      ParsedAllTells(items[..i]);
      assert forall j :: 0 <= j < i ==> items[j] == items[..i][j];
      assert BadItem(items, i);
    }
  }

  // The builder fails exactly when an item that is used lacks its '=' or its key, with the error of
  // the first such item, or else when some variable that should be set holds a NUL in its key or
  // value; a NUL in a binding that a later one overrides does no harm.
  lemma EnvironmentFailsIff(mode: Mode, inherited: seq<Binding>, items: seq<bytes>)
    ensures var r := Environment(mode, inherited, items);
            var bad := UsesItems(mode) && exists i :: 0 <= i < |items| && Parsed(items[i]).Failure?;
      && (r.Failure? && r.error != ContainsNul <==> bad)
      && (bad ==> exists i :: 0 <= i < |items| && BadItem(items, i) && Parsed(items[i]) == Failure(r.error))
      && (!bad ==>
            && (UsesItems(mode) ==> ParsedAll(items).Success?)
            && (r == Failure(ContainsNul) <==> HoldsNul(mode, inherited, items)))
  {
    ParsingFailsIff(items);
    if !UsesItems(mode) || ParsedAll(items).Success? {
      NulIsHeldIff(mode, inherited, items);
      PrintingFailsIff(InsertedAll([], Bindings(mode, inherited, items).value));
    }
  }

  lemma {:induction false} InsertHasKey(env: seq<Binding>, b: Binding)
    ensures b in Inserted(env, b)
    ensures forall e :: e in env ==> e in Inserted(env, b) || e.key == b.key
    ensures forall e :: e in Inserted(env, b) ==> e == b || e in env
  {
    if env != [] && env[0].key != b.key && !Less(b.key, env[0].key) {
      InsertHasKey(env[1..], b);
    }
    assert env != [] ==> env == [env[0]] + env[1..];
  }

  // Whether every key is plain does not depend on the order of insertion or on what wins.
  lemma {:induction false} PlainKeysSurvive(bs: seq<Binding>)
    ensures (forall e :: e in InsertedAll([], bs) ==> Plain(e.key)) <==> (forall b :: b in bs ==> Plain(b.key))
  {
    if bs != [] {
      var last := |bs| - 1;
      PlainKeysSurvive(bs[..last]);
      InsertHasKey(InsertedAll([], bs[..last]), bs[last]);
      assert bs == bs[..last] + [bs[last]];
    }
  }

  lemma EntriesRecoverIff(env: seq<Binding>)
    requires PrintedAll(env).Success?
    ensures ParsedAll(PrintedAll(env).value) == Success(env) <==> (forall e :: e in env ==> Plain(e.key))
  {
    var entries := PrintedAll(env).value;
    PrintedAllTells(env);
    forall i | 0 <= i < |env|
      ensures Parsed(entries[i]) == Success(env[i]) <==> Plain(env[i].key)
    {
      EntryRecoversIff(env[i]);
    }
    ParsesBackIff(entries, env);
  }

  // Splitting every produced entry at its first '=' recovers the whole environment exactly when no
  // inherited key in use is empty or holds a '='.
  lemma EnvironmentRecoversIff(mode: Mode, inherited: seq<Binding>, items: seq<bytes>)
    requires Environment(mode, inherited, items).Success?
    ensures ParsedAll(Environment(mode, inherited, items).value)
            == Success(InsertedAll([], Bindings(mode, inherited, items).value))
            <==> (UsesInherited(mode) ==> forall b :: b in inherited ==> Plain(b.key))
  {
    var bs := Bindings(mode, inherited, items).value;
    EntriesRecoverIff(InsertedAll([], bs));
    PlainKeysSurvive(bs);
    if UsesItems(mode) {
      ParsedAllTells(items);
      forall b | b in ParsedAll(items).value
        ensures Plain(b.key)
      {
        var i :| 0 <= i < |items| && ParsedAll(items).value[i] == b;
        ItemKeysAreSound(items[i]);
      }
    }
  }

  predicate Plain(key: bytes) {
    key != [] && EQUALS !in key
  }

  lemma ParsesBackIff(entries: seq<bytes>, bs: seq<Binding>)
    requires |entries| == |bs|
    ensures ParsedAll(entries) == Success(bs) <==> forall i :: 0 <= i < |bs| ==> Parsed(entries[i]) == Success(bs[i])
  {
    ParsedAllTells(entries);
    if ParsedAll(entries).Success? && forall i :: 0 <= i < |bs| ==> Parsed(entries[i]) == Success(bs[i]) {
      var back := ParsedAll(entries).value;
      assert forall i :: 0 <= i < |bs| ==> Success(back[i]) == Parsed(entries[i]) == Success(bs[i]);
      assert back == bs;
    }
  }

  // A key that comes from an item is never empty and never holds a '='.
  lemma ItemKeysAreSound(item: bytes)
    ensures Parsed(item).Success? ==>
              var b := Parsed(item).value;
              Plain(b.key) && Printed(b) == item
  {
    FirstEqualsIsFirst(item);
    if Parsed(item).Success? {
      var i := FirstEquals(item).value;
      assert item == item[..i] + [item[i]] + item[i + 1..];
      assert EQUALS !in item[..i];
    }
  }
}
