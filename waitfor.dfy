/** A model of package `waitfor`: a registry of named readiness checks, a bounded
    retry loop per check, and the aggregation of the failures of one `Wait` call
    into a single error value. */
module WaitFor {

  datatype Option<+T> = None | Some(value: T)

  /** A Go `error` value, seen through its `Error()` text. A nil error is `None`
      wherever the source allows nil. */
  datatype Error = Error(text: string)

  /** A readiness check, treated as an oracle: `check(i)` is what the check returns
      on its `i`-th invocation (counting from 0) within one retry loop. */
  type Check = nat -> Option<Error>

  /** Retry policy: how many attempts, and the pause between failed attempts
      (a `time.Duration`, in nanoseconds). */
  datatype Options = Options(retries: int, timeout: int)

  const Second: int := 1_000_000_000
  const DefaultRetries: int := 10
  const DefaultTimeout: int := 10 * Second

  /** What the retry loop does, in order: invoke the check, or sleep. */
  datatype Event = Invoke | Sleep(duration: int)

  /** The end of one retry loop: how many times the check was invoked, and the
      error returned (None for nil). */
  datatype Run = Run(attempts: nat, err: Option<Error>)

  /** The error performCheck reports once the last permitted attempt failed. */
  function TimeoutError(name: string, cause: Error): Error
  {
    Error("Timeout waiting for " + name + " because [" + cause.text + "]")
  }

  // ---------------------------------------------------------------------------
  // performCheck
  // ---------------------------------------------------------------------------

  /** The retry loop from attempt `i` on, one step per iteration. Its contract
      gives the closed form: which attempts ran, why the loop stopped, and the
      error it reports. */
  function RetryFrom(name: string, check: Check, retries: int, i: nat): (r: Run)
    ensures retries <= i ==> r == Run(i, None)
    ensures i < retries ==> i < r.attempts <= retries
    ensures forall j :: i <= j < r.attempts - 1 ==> check(j).Some?
    ensures i < r.attempts ==> (r.err.None? <==> check(r.attempts - 1).None?)
    ensures r.err.Some? <==> i < retries && forall j :: i <= j < retries ==> check(j).Some?
    ensures r.err.Some? ==> r.attempts == retries && r.err.value == TimeoutError(name, check(retries - 1).value)
    decreases retries - i
  {
    if retries <= i then Run(i, None)
    else if check(i).None? then Run(i + 1, None)
    else if i + 1 == retries then Run(i + 1, Some(TimeoutError(name, check(i).value)))
    else RetryFrom(name, check, retries, i + 1)
  }

  /** What performCheck does with `check` under `option`. */
  function Outcome(name: string, check: Check, option: Options): (r: Run)
    // at most max(Retries, 0) invocations
    ensures r.attempts <= if option.retries <= 0 then 0 else option.retries
    // a non-positive retry count never invokes the check and reports nil
    ensures option.retries <= 0 ==> r == Run(0, None)
    ensures option.retries >= 1 ==> r.attempts >= 1
    // every attempt except the last one failed: nothing runs after a success
    ensures forall j :: 0 <= j < r.attempts - 1 ==> check(j).Some?
    // the loop reports nil exactly when its last attempt succeeded
    ensures r.attempts >= 1 ==> (r.err.None? <==> check(r.attempts - 1).None?)
    // an error exactly when every one of the Retries attempts failed
    ensures r.err.Some? <==> option.retries >= 1 && forall j :: 0 <= j < option.retries ==> check(j).Some?
    // and then it carries the failure of the final attempt
    ensures r.err.Some? ==>
              r.attempts == option.retries && r.err.value == TimeoutError(name, check(option.retries - 1).value)
  {
    RetryFrom(name, check, option.retries, 0)
  }

  /** `n` invocations of the check, with a pause of `pause` between neighbours. */
  function Schedule(n: nat, pause: int): seq<Event>
  {
    if n == 0 then []
    else if n == 1 then [Invoke]
    else Schedule(n - 1, pause) + [Sleep(pause), Invoke]
  }

  function Invocations(t: seq<Event>): nat
  {
    if t == [] then 0 else Invocations(t[..|t| - 1]) + (if t[|t| - 1].Invoke? then 1 else 0)
  }

  function Sleeps(t: seq<Event>): nat
  {
    if t == [] then 0 else Sleeps(t[..|t| - 1]) + (if t[|t| - 1].Sleep? then 1 else 0)
  }

  /** A schedule of `n` attempts alternates invocations and sleeps, starting and
      ending with an invocation: `n` invocations and `n - 1` sleeps, each of
      `pause`, and no sleep after the last invocation. */
  lemma {:induction false} ScheduleShape(n: nat, pause: int)
    ensures |Schedule(n, pause)| == if n == 0 then 0 else 2 * n - 1
    ensures forall k :: 0 <= k < |Schedule(n, pause)| ==>
              Schedule(n, pause)[k] == if k % 2 == 0 then Invoke else Sleep(pause)
    ensures Invocations(Schedule(n, pause)) == n
    ensures Sleeps(Schedule(n, pause)) == if n == 0 then 0 else n - 1
  {
    if n > 1 {
      ScheduleShape(n - 1, pause);
      var s, t := Schedule(n - 1, pause), Schedule(n, pause);
      assert t == s + [Sleep(pause), Invoke];
      assert t[..|t| - 1] == s + [Sleep(pause)];
      assert (s + [Sleep(pause)])[..|s|] == s;
    } else if n == 1 {
      assert Schedule(1, pause)[..0] == [];
    }
  }

  /** performCheck: up to `option.retries` invocations of `check`, a sleep of
      `option.timeout` after each failed attempt but the last, stopping at the
      first success. `trace` records the invocations and sleeps in order. */
  method PerformCheck(name: string, check: Check, option: Options)
    returns (err: Option<Error>, ghost trace: seq<Event>)
    ensures err == Outcome(name, check, option).err
    ensures trace == Schedule(Outcome(name, check, option).attempts, option.timeout)
  {
    trace := [];
    var i := 0;
    while i < option.retries
      invariant i == 0 || i < option.retries
      invariant RetryFrom(name, check, option.retries, i) == Outcome(name, check, option)
      invariant trace == if i == 0 then [] else Schedule(i, option.timeout) + [Sleep(option.timeout)]
    {
      var e := check(i);
      trace := trace + [Invoke];
      if e.None? {
        break;
      }
      if i + 1 == option.retries {
        err := Some(TimeoutError(name, e.value));
        return;
      }
      trace := trace + [Sleep(option.timeout)];
      i := i + 1;
    }
    err := None;
  }

  // ---------------------------------------------------------------------------
  // toError
  // ---------------------------------------------------------------------------

  /** The text toError builds: every message followed by a newline. */
  function Joined(messages: seq<Error>): (s: string)
    ensures s == [] <==> messages == []
  {
    if messages == [] then ""
    else Joined(messages[..|messages| - 1]) + messages[|messages| - 1].text + "\n"
  }

  /** toError: concatenates the collected messages, each followed by "\n", and
      wraps the text in an error. Go passes the text to `fmt.Errorf` as a format
      string, so a `%` in a name or an underlying error would be reinterpreted
      there; the model takes the text as it is. The result is never nil, even
      when `messages` is empty. */
  method ToError(messages: seq<Error>) returns (err: Error)
    ensures err.text == Joined(messages)
  {
    var errMsg := "";
    for k := 0 to |messages|
      invariant errMsg == Joined(messages[..k])
    {
      assert messages[..k + 1][..k] == messages[..k];
      errMsg := errMsg + messages[k].text + "\n";
    }
    assert messages[..|messages|] == messages;
    err := Error(errMsg);
  }

  lemma {:induction false} JoinedAppend(a: seq<Error>, b: seq<Error>)
    ensures Joined(a + b) == Joined(a) + Joined(b)
    decreases |b|
  {
    if b == [] {
      assert a + b == a;
    } else {
      var b', y := b[..|b| - 1], b[|b| - 1];
      JoinedAppend(a, b');
      assert (a + b)[..|a + b| - 1] == a + b';
      assert (a + b)[|a + b| - 1] == y;
      var tail := y.text + "\n";
      assert Joined(a + b) == Joined(a + b') + tail;
      assert Joined(b) == Joined(b') + tail;
    }
  }

  /** Index of the first newline in `s`, or `|s|` when there is none. */
  function NewlineAt(s: string): (k: nat)
    ensures k <= |s|
    ensures forall j :: 0 <= j < k ==> s[j] != '\n'
    ensures k < |s| ==> s[k] == '\n'
  {
    if s == [] then 0 else if s[0] == '\n' then 0 else 1 + NewlineAt(s[1..])
  }

  lemma {:induction false} NewlineAfter(t: string, rest: string)
    requires '\n' !in t
    ensures NewlineAt(t + "\n" + rest) == |t|
    decreases |t|
  {
    if t != [] {
      assert (t + "\n" + rest)[1..] == t[1..] + "\n" + rest;
      NewlineAfter(t[1..], rest);
    }
  }

  /** Reads an aggregated text back as one message per line. */
  function Lines(s: string): seq<Error>
    decreases |s|
  {
    if s == [] then []
    else
      var k := NewlineAt(s);
      if k == |s| then [Error(s)] else [Error(s[..k])] + Lines(s[k + 1..])
  }

  /** When no message contains a newline, the aggregated text lists exactly the
      collected messages, one per line, in the order they were collected. */
  lemma {:induction false} LinesJoined(messages: seq<Error>)
    requires forall i :: 0 <= i < |messages| ==> '\n' !in messages[i].text
    ensures Lines(Joined(messages)) == messages
    decreases |messages|
  {
    if messages != [] {
      var head, rest := messages[0], messages[1..];
      assert messages == [head] + rest;
      JoinedAppend([head], rest);
      assert [head][..0] == [];
      assert Joined([head]) == head.text + "\n";
      var s := Joined(messages);
      assert s == head.text + "\n" + Joined(rest);
      NewlineAfter(head.text, Joined(rest));
      assert s[..|head.text|] == head.text;
      assert s[|head.text| + 1..] == Joined(rest);
      LinesJoined(rest);
    }
  }

  // ---------------------------------------------------------------------------
  // Wait: aggregation of the per-dependency outcomes
  // ---------------------------------------------------------------------------

  /** What performCheck reports for each registered dependency. */
  function Verdicts(deps: map<string, Check>, option: Options): (v: map<string, Option<Error>>)
    ensures v.Keys == deps.Keys
  {
    map n | n in deps :: Outcome(n, deps[n], option).err
  }

  /** `order` lists every name of `names` exactly once. */
  ghost predicate Enumerates(order: seq<string>, names: set<string>)
  {
    && (forall i, j :: 0 <= i < j < |order| ==> order[i] != order[j])
    && (forall n :: n in order <==> n in names)
  }

  ghost predicate Within(verdicts: map<string, Option<Error>>, order: seq<string>)
  {
    forall k :: 0 <= k < |order| ==> order[k] in verdicts
  }

  /** What the worker for one dependency sends on the channel: its error, if any. */
  function Sent(err: Option<Error>): (s: seq<Error>)
    ensures |s| <= 1
  {
    if err.Some? then [err.value] else []
  }

  /** The errors on the channel when the workers finish in `order`. */
  function Collected(verdicts: map<string, Option<Error>>, order: seq<string>): (errs: seq<Error>)
    requires Within(verdicts, order)
    ensures |errs| <= |order|
  {
    if order == [] then []
    else Collected(verdicts, order[..|order| - 1]) + Sent(verdicts[order[|order| - 1]])
  }

  /** The names, in `order`, whose retry loop reported an error. */
  function FailedNames(verdicts: map<string, Option<Error>>, order: seq<string>): seq<string>
    requires Within(verdicts, order)
  {
    if order == [] then []
    else
      var name := order[|order| - 1];
      FailedNames(verdicts, order[..|order| - 1]) + if verdicts[name].Some? then [name] else []
  }

  /** The i-th error collected is the error of the i-th failed name. */
  lemma {:induction false} CollectedFollowNames(verdicts: map<string, Option<Error>>, order: seq<string>)
    requires Within(verdicts, order)
    ensures |Collected(verdicts, order)| == |FailedNames(verdicts, order)|
    ensures forall i :: 0 <= i < |FailedNames(verdicts, order)| ==>
              FailedNames(verdicts, order)[i] in verdicts &&
              verdicts[FailedNames(verdicts, order)[i]] == Some(Collected(verdicts, order)[i])
    decreases |order|
  {
    if order != [] {
      CollectedFollowNames(verdicts, order[..|order| - 1]);
    }
  }

  /** The failed names are the names of `order` with an error, each listed as
      often as in `order`. */
  lemma {:induction false} FailedNamesMembers(verdicts: map<string, Option<Error>>, order: seq<string>)
    requires Within(verdicts, order)
    ensures forall n :: n in FailedNames(verdicts, order) <==> n in order && verdicts[n].Some?
    ensures (forall i, j :: 0 <= i < j < |order| ==> order[i] != order[j]) ==>
              forall i, j :: 0 <= i < j < |FailedNames(verdicts, order)| ==>
                FailedNames(verdicts, order)[i] != FailedNames(verdicts, order)[j]
    decreases |order|
  {
    if order != [] {
      var init, name := order[..|order| - 1], order[|order| - 1];
      FailedNamesMembers(verdicts, init);
      assert order == init + [name];
      forall n ensures n in order <==> n in init || n == name { }
    }
  }

  /** Part way through the loop over a map: `order` lists, once each, the names
      already visited, and `pending` holds the rest. */
  ghost predicate Progress(names: set<string>, order: seq<string>, pending: set<string>)
  {
    && pending <= names
    && (forall n :: n in order <==> n in names && n !in pending)
    && (forall i, j :: 0 <= i < j < |order| ==> order[i] != order[j])
    && |order| + |pending| == |names|
  }

  lemma ProgressStep(names: set<string>, order: seq<string>, pending: set<string>, name: string)
    requires Progress(names, order, pending) && name in pending
    ensures Progress(names, order + [name], pending - {name})
  {
    assert |pending - {name}| == |pending| - 1;
    forall n ensures n in order + [name] <==> n in order || n == name { }
  }

  lemma CollectedStep(verdicts: map<string, Option<Error>>, order: seq<string>, name: string)
    requires Within(verdicts, order) && name in verdicts
    ensures Within(verdicts, order + [name])
    ensures Collected(verdicts, order + [name]) == Collected(verdicts, order) + Sent(verdicts[name])
  {
    assert (order + [name])[..|order|] == order;
  }

  lemma {:induction false} EnumerationSize(order: seq<string>, names: set<string>)
    requires Enumerates(order, names)
    ensures |order| == |names|
    decreases |order|
  {
    if order != [] {
      var init, last := order[..|order| - 1], order[|order| - 1];
      assert order == init + [last];
      forall j | 0 <= j < |init| ensures init[j] != last {
        assert order[j] == init[j];
      }
      assert Enumerates(init, names - {last});
      EnumerationSize(init, names - {last});
    } else {
      assert names == {};
    }
  }

  /** For a full enumeration of the registry: one error per dependency whose
      check failed, none for a dependency whose check succeeded, each being that
      dependency's timeout error; so at most one send per dependency. */
  lemma WaitReportsEachFailure(deps: map<string, Check>, order: seq<string>, option: Options)
    requires Enumerates(order, deps.Keys)
    ensures Within(Verdicts(deps, option), order)
    ensures Enumerates(FailedNames(Verdicts(deps, option), order),
                       set n | n in deps && Outcome(n, deps[n], option).err.Some?)
    ensures |Collected(Verdicts(deps, option), order)| == |FailedNames(Verdicts(deps, option), order)| <= |deps|
    ensures forall i :: 0 <= i < |FailedNames(Verdicts(deps, option), order)| ==>
              var n := FailedNames(Verdicts(deps, option), order)[i];
              n in deps && Outcome(n, deps[n], option).err == Some(Collected(Verdicts(deps, option), order)[i])
  {
    var v := Verdicts(deps, option);
    assert Within(v, order);
    FailedNamesMembers(v, order);
    CollectedFollowNames(v, order);
    EnumerationSize(order, deps.Keys);
  }

  /** The aggregated text is empty exactly when no dependency failed. */
  lemma WaitTextEmptyIff(deps: map<string, Check>, order: seq<string>, option: Options)
    requires Enumerates(order, deps.Keys)
    ensures Within(Verdicts(deps, option), order)
    ensures Joined(Collected(Verdicts(deps, option), order)) == "" <==>
              forall n :: n in deps ==> Outcome(n, deps[n], option).err.None?
  {
    var v := Verdicts(deps, option);
    assert Within(v, order);
    FailedNamesMembers(v, order);
    CollectedFollowNames(v, order);
    var names := FailedNames(v, order);
    if names != [] {
      assert names[0] in names;
    } else {
      forall n | n in deps ensures v[n].None? {
        assert n in order;
      }
    }
  }

  lemma {:induction false} CollectedAppend(verdicts: map<string, Option<Error>>, a: seq<string>, b: seq<string>)
    requires Within(verdicts, a) && Within(verdicts, b)
    ensures Within(verdicts, a + b)
    ensures Collected(verdicts, a + b) == Collected(verdicts, a) + Collected(verdicts, b)
    decreases |b|
  {
    assert Within(verdicts, a + b) by {
      forall k | 0 <= k < |a + b| ensures (a + b)[k] in verdicts {
        if k >= |a| {
          assert (a + b)[k] == b[k - |a|];
        }
      }
    }
    if b == [] {
      assert a + b == a;
    } else {
      var b' := b[..|b| - 1];
      assert Within(verdicts, b');
      CollectedAppend(verdicts, a, b');
      assert (a + b)[..|a + b| - 1] == a + b';
    }
  }

  lemma WithinParts(verdicts: map<string, Option<Error>>, o: seq<string>, k: nat)
    requires Within(verdicts, o) && k < |o|
    ensures Within(verdicts, o[..k]) && Within(verdicts, o[k + 1..]) && Within(verdicts, [o[k]])
    ensures Within(verdicts, o[..k] + o[k + 1..])
  {
    assert forall i :: 0 <= i < |o[..k] + o[k + 1..]| ==>
      (o[..k] + o[k + 1..])[i] == if i < k then o[i] else o[i + 1];
  }

  /** Removing the element at `k` removes one occurrence from the multiset. */
  lemma RemoveAt(o: seq<string>, k: nat)
    requires k < |o|
    ensures o == o[..k] + [o[k]] + o[k + 1..]
    ensures multiset(o[..k] + o[k + 1..]) == multiset(o) - multiset{o[k]}
  {
    assert o == o[..k] + [o[k]] + o[k + 1..];
  }

  /** Collecting the same names in another order gives the same errors, counted
      with multiplicity; only their order may differ. */
  lemma {:induction false} CollectedPermute(verdicts: map<string, Option<Error>>, o1: seq<string>, o2: seq<string>)
    requires Within(verdicts, o1) && Within(verdicts, o2)
    requires multiset(o1) == multiset(o2)
    ensures multiset(Collected(verdicts, o1)) == multiset(Collected(verdicts, o2))
    decreases |o1|
  {
    if o1 == [] {
      assert |o2| == |multiset(o2)| == |multiset(o1)| == 0;
    } else {
      var init, x := o1[..|o1| - 1], o1[|o1| - 1];
      RemoveAt(o1, |o1| - 1);
      assert o1[..|o1| - 1] + o1[|o1|..] == init;
      assert x in multiset(o2);
      var k :| 0 <= k < |o2| && o2[k] == x;
      RemoveAt(o2, k);
      var left, right := o2[..k], o2[k + 1..];
      WithinParts(verdicts, o1, |o1| - 1);
      WithinParts(verdicts, o2, k);
      CollectedPermute(verdicts, init, left + right);
      CollectedAppend(verdicts, left, right);
      CollectedAppend(verdicts, left, [x]);
      CollectedAppend(verdicts, left + [x], right);
      var fl, fr, fi, fx := Collected(verdicts, left), Collected(verdicts, right),
                            Collected(verdicts, init), Sent(verdicts[x]);
      assert [x][..0] == [];
      assert Collected(verdicts, [x]) == fx;
      assert Collected(verdicts, o1) == fi + fx;
      assert Collected(verdicts, o2) == fl + fx + fr;
      MultisetShuffle(fl, fx, fr, fi);
    }
  }

  lemma MultisetShuffle(fl: seq<Error>, fx: seq<Error>, fr: seq<Error>, fi: seq<Error>)
    requires multiset(fi) == multiset(fl + fr)
    ensures multiset(fi + fx) == multiset(fl + fx + fr)
  {
  }

  lemma {:induction false} DistinctCount(o: seq<string>, n: string)
    requires forall i, j :: 0 <= i < j < |o| ==> o[i] != o[j]
    ensures multiset(o)[n] == if n in o then 1 else 0
    decreases |o|
  {
    if o != [] {
      var init, last := o[..|o| - 1], o[|o| - 1];
      assert o == init + [last];
      DistinctCount(init, n);
      forall j | 0 <= j < |init| ensures init[j] != last {
        assert o[j] == init[j];
      }
    }
  }

  lemma EnumerationsSameMultiset(o1: seq<string>, o2: seq<string>, names: set<string>)
    requires Enumerates(o1, names) && Enumerates(o2, names)
    ensures multiset(o1) == multiset(o2)
  {
    forall n ensures multiset(o1)[n] == multiset(o2)[n] {
      DistinctCount(o1, n);
      DistinctCount(o2, n);
    }
  }

  /** The order in which the map is visited does not change which errors are
      collected: any two iteration orders give the same multiset. */
  lemma WaitOrderIrrelevant(deps: map<string, Check>, o1: seq<string>, o2: seq<string>, option: Options)
    requires Enumerates(o1, deps.Keys) && Enumerates(o2, deps.Keys)
    ensures Within(Verdicts(deps, option), o1) && Within(Verdicts(deps, option), o2)
    ensures multiset(Collected(Verdicts(deps, option), o1)) == multiset(Collected(Verdicts(deps, option), o2))
  {
    var v := Verdicts(deps, option);
    assert Within(v, o1) && Within(v, o2);
    EnumerationsSameMultiset(o1, o2, deps.Keys);
    CollectedPermute(v, o1, o2);
  }

  /** The goroutine `Wait` starts for one dependency: run performCheck and, if
      it reports an error, send that error on the channel. */
  method Worker(name: string, check: Check, option: Options, channel: seq<Error>)
    returns (channel': seq<Error>)
    ensures channel' == channel + Sent(Outcome(name, check, option).err)
  {
    var err;
    ghost var trace;
    err, trace := PerformCheck(name, check, option);
    channel' := channel;
    if err.Some? {
      channel' := channel' + [err.value];
    }
  }

  // ---------------------------------------------------------------------------
  // Handler
  // ---------------------------------------------------------------------------

  /** The retry policy Wait uses: the first option when any is given, the
      defaults otherwise. */
  function Chosen(options: seq<Options>): Options
  {
    if |options| >= 1 then options[0] else Options(DefaultRetries, DefaultTimeout)
  }

  /** The dependency handler: a map from dependency name to its check. */
  class Handler {
    var dependencies: map<string, Check>

    /** NewDependencies: a handler with no dependencies. */
    constructor NewDependencies()
      ensures dependencies == map[]
    {
      dependencies := map[];
    }

    /** Registers `check` under `name`, replacing any check already there. */
    method Add(name: string, check: Check)
      modifies this
      ensures dependencies == old(dependencies)[name := check]
    {
      dependencies := dependencies[name := check];
    }

    /** Runs performCheck once per registered dependency, with `options[0]` when
        given and the defaults otherwise, and aggregates the errors with toError.
        `order` is the order in which the map was visited; the result is always
        an error value, its text empty when nothing failed. */
    method Wait(options: seq<Options>) returns (err: Error, ghost chosen: Options, ghost order: seq<string>)
      ensures chosen == Chosen(options)
      ensures Enumerates(order, dependencies.Keys)
      ensures err.text == Joined(Collected(Verdicts(dependencies, chosen), order))
      // never nil: its text is empty exactly when every dependency is ready
      ensures err.text == "" <==>
                forall n :: n in dependencies ==> Outcome(n, dependencies[n], Chosen(options)).err.None?
    {
      var option := Options(DefaultRetries, DefaultTimeout);
      if |options| >= 1 {
        option := options[0];
      }
      chosen := option;
      ghost var verdicts := Verdicts(dependencies, option);
      var capacity := |dependencies| + 1;
      var sent: seq<Error> := [];
      var pending := dependencies.Keys;
      order := [];
      while pending != {}
        invariant Progress(dependencies.Keys, order, pending)
        invariant Within(verdicts, order)
        invariant sent == Collected(verdicts, order)
        decreases |pending|
      {
        var name :| name in pending;
        // the channel holds |dependencies| + 1 errors: a send never blocks
        assert |sent| < capacity;
        sent := Worker(name, dependencies[name], option, sent);
        ProgressStep(dependencies.Keys, order, pending, name);
        CollectedStep(verdicts, order, name);
        order := order + [name];
        pending := pending - {name};
      }
      err := ToError(sent);
      WaitTextEmptyIff(dependencies, order, option);
    }
  }

  // ---------------------------------------------------------------------------
  // Scenarios
  // ---------------------------------------------------------------------------

  /** A check that fails on every attempt, with the same error. */
  function AlwaysFails(e: Error): Check
  {
    (i: nat) => Some(e)
  }

  /** A check that succeeds on every attempt. */
  function AlwaysSucceeds(): Check
  {
    (i: nat) => None
  }

  /** A check that always fails is invoked exactly Retries times, with
      Retries - 1 sleeps between, and reports its error. */
  lemma AlwaysFailingCheck(name: string, e: Error, option: Options)
    requires option.retries >= 1
    ensures Outcome(name, AlwaysFails(e), option) == Run(option.retries, Some(TimeoutError(name, e)))
    ensures Invocations(Schedule(option.retries, option.timeout)) == option.retries
    ensures Sleeps(Schedule(option.retries, option.timeout)) == option.retries - 1
  {
    ScheduleShape(option.retries, option.timeout);
  }

  /** A check that always succeeds is invoked once (never when Retries <= 0),
      and reports nil. */
  lemma AlwaysSucceedingCheck(name: string, option: Options)
    ensures Outcome(name, AlwaysSucceeds(), option)
              == Run(if option.retries >= 1 then 1 else 0, None)
  {
  }

  /** With one always failing and one always succeeding dependency, only the
      failing one is reported, whatever the iteration order. */
  lemma OneFailingOneReady(a: string, b: string, e: Error, option: Options, order: seq<string>)
    requires a != b && option.retries >= 1
    requires Enumerates(order, {a, b})
    ensures Within(Verdicts(map[a := AlwaysFails(e), b := AlwaysSucceeds()], option), order)
    ensures Collected(Verdicts(map[a := AlwaysFails(e), b := AlwaysSucceeds()], option), order)
              == [TimeoutError(a, e)]
  {
    var deps := map[a := AlwaysFails(e), b := AlwaysSucceeds()];
    var v := Verdicts(deps, option);
    AlwaysFailingCheck(a, e, option);
    AlwaysSucceedingCheck(b, option);
    assert v.Keys == {a, b};
    assert v[a] == Some(TimeoutError(a, e)) && v[b] == None;
    EnumeratesTwo(order, a, b);
    CollectedOfTwo(v, a, b, TimeoutError(a, e), order);
  }

  lemma CollectedOfTwo(v: map<string, Option<Error>>, a: string, b: string, x: Error, order: seq<string>)
    requires a in v && b in v && v[a] == Some(x) && v[b] == None
    requires order == [a, b] || order == [b, a]
    ensures Within(v, order) && Collected(v, order) == [x]
  {
    if order == [a, b] {
      CollectedPair(v, a, b);
    } else {
      CollectedPair(v, b, a);
    }
  }

  lemma CollectedPair(v: map<string, Option<Error>>, first: string, second: string)
    requires first in v && second in v
    ensures Within(v, [first, second])
    ensures Collected(v, [first, second]) == Sent(v[first]) + Sent(v[second])
  {
    assert [first, second][..1] == [first];
    assert [first][..0] == [];
    assert Collected(v, [first]) == Sent(v[first]);
  }

  /** The only enumerations of a two-element set. */
  lemma EnumeratesTwo(order: seq<string>, a: string, b: string)
    requires a != b && Enumerates(order, {a, b})
    ensures order == [a, b] || order == [b, a]
  {
    EnumerationSize(order, {a, b});
    assert |{a, b}| == |{a}| + 1;
    assert order[0] in order && order[1] in order;
  }

  /** With a single dependency, Wait's text is that dependency's timeout error
      and a newline when its retry loop failed, and empty (an error with no text,
      not nil) when it succeeded. */
  lemma SingleDependency(name: string, check: Check, option: Options, order: seq<string>)
    requires Enumerates(order, {name})
    ensures Within(Verdicts(map[name := check], option), order)
    ensures Joined(Collected(Verdicts(map[name := check], option), order))
              == match Outcome(name, check, option).err
                 case None => ""
                 case Some(e) => e.text + "\n"
  {
    EnumeratesOne(order, name);
    JoinedOne(Verdicts(map[name := check], option), name);
  }

  /** The only enumeration of a one-element set. */
  lemma EnumeratesOne(order: seq<string>, name: string)
    requires Enumerates(order, {name})
    ensures order == [name]
  {
    EnumerationSize(order, {name});
    assert order[0] in order;
  }

  lemma JoinedOne(v: map<string, Option<Error>>, name: string)
    requires name in v
    ensures Within(v, [name])
    ensures Joined(Collected(v, [name])) == if v[name].Some? then v[name].value.text + "\n" else ""
  {
    assert [name][..0] == [];
    var sent := Sent(v[name]);
    assert Collected(v, [name]) == sent;
    if sent != [] {
      assert sent[..0] == [];
    }
  }

  /** With no dependency registered, Wait's text is empty. */
  lemma NoDependencies(order: seq<string>, option: Options)
    requires Enumerates(order, {})
    ensures Within(Verdicts(map[], option), order)
    ensures Joined(Collected(Verdicts(map[], option), order)) == ""
  {
    assert forall k :: 0 <= k < |order| ==> order[k] in order;
  }
}
