/**
 * The index updater: it turns (identifier, partial document) pairs into bulk
 * "update" actions against one fixed index and document type, hands them to the
 * search engine's parallel bulk helper, and collects the responses of the
 * actions that failed.
 */
module Update {
  import opened Wrappers
  import opened Values
  import opened IntCoercion

  /** The operation kind of every action the updater builds. */
  const OpUpdate: string := "update"

  /** The keys of an action record as the bulk helper receives it. */
  const ActionKeys: set<string> := {"_index", "_type", "_op_type", "_id", "doc"}

  /** One bulk action: target index and type, operation kind, document id, partial document. */
  datatype Action = Action(index: string, docType: string, opType: string, id: int, doc: Value)

  /** The dictionary form of an action that is handed to the bulk helper. */
  function ToDict(a: Action): (m: map<string, Value>)
    ensures m.Keys == ActionKeys
  {
    map["_index" := Str(a.index), "_type" := Str(a.docType), "_op_type" := Str(a.opType),
        "_id" := Int(a.id), "doc" := a.doc]
  }

  /** Reads an action back from its dictionary form; None for any other dictionary. */
  function FromDict(m: map<string, Value>): (r: Option<Action>) {
    if && m.Keys == ActionKeys
       && m["_index"].Str? && m["_type"].Str? && m["_op_type"].Str? && m["_id"].Int?
    then Some(Action(m["_index"].s, m["_type"].s, m["_op_type"].s, m["_id"].n, m["doc"]))
    else None
  }

  /** The dictionary form loses nothing: every action is read back from it. */
  lemma DictRoundTrip(a: Action)
    ensures FromDict(ToDict(a)) == Some(a)
  {
  }

  /** The dictionary form is the only dictionary that reads back as a given action. */
  lemma DictRoundTripBack(m: map<string, Value>, a: Action)
    requires FromDict(m) == Some(a)
    ensures ToDict(a) == m
  {
  }

  /** What the bulk helper yields per action it has run: a success flag and the engine's response. */
  datatype Outcome = Outcome(success: bool, response: Value)

  /**
   * An exception that escapes the bulk helper: the one `int` raised while the
   * helper pulled an action from the lazy sequence, or one of the engine client's own.
   */
  datatype Raised = Coercion(error: CoercionError) | Engine(detail: Value)

  /**
   * What one run of the bulk helper produces as it is consumed: the outcomes it
   * yields, in the order it yields them, and the exception, if any, it raises
   * after the last of them.
   */
  datatype BulkRun = BulkRun(outcomes: seq<Outcome>, raised: Option<Raised>)

  /** The responses of the failed outcomes, in the order the outcomes come. */
  function FailedResponses(outcomes: seq<Outcome>): (errors: seq<Value>) {
    if outcomes == [] then []
    else
      var last := outcomes[|outcomes| - 1];
      FailedResponses(outcomes[..|outcomes| - 1]) + (if last.success then [] else [last.response])
  }

  /** The positions of the failed outcomes. */
  function FailedPositions(outcomes: seq<Outcome>): (positions: set<int>) {
    set i | 0 <= i < |outcomes| && !outcomes[i].success
  }

  /** Failures of consecutive stretches of outcomes add up. */
  lemma {:induction false} FailedResponsesAppend(a: seq<Outcome>, b: seq<Outcome>)
    ensures FailedResponses(a + b) == FailedResponses(a) + FailedResponses(b)
  {
    if b == [] {
      assert a + b == a;
    } else {
      var b' := b[..|b| - 1];
      assert (a + b)[..|a + b| - 1] == a + b';
      assert (a + b)[|a + b| - 1] == b[|b| - 1];
      FailedResponsesAppend(a, b');
    }
  }

  /** The error list only grows: what was collected after k outcomes is a prefix of the final list. */
  lemma ErrorsOnlyGrow(outcomes: seq<Outcome>, k: nat)
    requires k <= |outcomes|
    ensures FailedResponses(outcomes[..k]) <= FailedResponses(outcomes)
  {
    assert outcomes == outcomes[..k] + outcomes[k..];
    FailedResponsesAppend(outcomes[..k], outcomes[k..]);
  }

  /** A response is collected exactly when some failed outcome carries it. */
  lemma {:induction false} FailedResponsesMembership(outcomes: seq<Outcome>, v: Value)
    ensures v in FailedResponses(outcomes) <==>
            exists i :: 0 <= i < |outcomes| && !outcomes[i].success && outcomes[i].response == v
  {
    if outcomes != [] {
      var n := |outcomes| - 1;
      var init := outcomes[..n];
      FailedResponsesMembership(init, v);
      if exists i :: 0 <= i < |outcomes| && !outcomes[i].success && outcomes[i].response == v {
        var i :| 0 <= i < |outcomes| && !outcomes[i].success && outcomes[i].response == v;
        if i < n {
          assert init[i] == outcomes[i];
        }
      }
      if exists i :: 0 <= i < |init| && !init[i].success && init[i].response == v {
        var i :| 0 <= i < |init| && !init[i].success && init[i].response == v;
        assert outcomes[i] == init[i];
      }
    }
  }

  /** The error list is empty exactly when every outcome succeeded; no outcomes, no errors. */
  lemma {:induction false} NoFailuresNoErrors(outcomes: seq<Outcome>)
    ensures FailedResponses(outcomes) == [] <==> forall i :: 0 <= i < |outcomes| ==> outcomes[i].success
  {
    if outcomes != [] {
      var n := |outcomes| - 1;
      NoFailuresNoErrors(outcomes[..n]);
      assert forall i :: 0 <= i < n ==> outcomes[..n][i] == outcomes[i];
    }
  }

  /** The error list holds one response per failed outcome. */
  lemma {:induction false} ErrorCountIsFailureCount(outcomes: seq<Outcome>)
    ensures |FailedResponses(outcomes)| == |FailedPositions(outcomes)|
  {
    if outcomes != [] {
      var n := |outcomes| - 1;
      var init := outcomes[..n];
      ErrorCountIsFailureCount(init);
      var before := FailedPositions(init);
      assert before == set i | 0 <= i < n && !outcomes[i].success;
      if outcomes[n].success {
        assert FailedPositions(outcomes) == before;
      } else {
        assert FailedPositions(outcomes) == before + {n};
        assert n !in before;
      }
    }
  }

  lemma MultisetSplit<T>(a: seq<T>, b: seq<T>, c: seq<T>)
    ensures multiset(a + b + c) == multiset(a + c) + multiset(b)
  {
  }

  /** Taking one outcome out of a run takes out its share of the errors, and nothing else. */
  lemma FailuresWithout(p: seq<Outcome>, x: Outcome, q: seq<Outcome>)
    ensures multiset(FailedResponses(p + [x] + q)) ==
            multiset(FailedResponses(p + q)) + multiset(FailedResponses([x]))
  {
    FailedResponsesAppend(p + [x], q);
    FailedResponsesAppend(p, [x]);
    FailedResponsesAppend(p, q);
    MultisetSplit(FailedResponses(p), FailedResponses([x]), FailedResponses(q));
  }

  lemma MultisetCancel<T>(a: multiset<T>, b: multiset<T>, x: T)
    requires a + multiset{x} == b + multiset{x}
    ensures a == b
  {
    forall y ensures a[y] == b[y] {
      assert (a + multiset{x})[y] == (b + multiset{x})[y];
    }
  }

  /**
   * The errors collected do not depend on the order in which the bulk helper
   * completes its actions: outcomes that are a permutation of each other give
   * the same errors, as a multiset.
   */
  lemma {:induction false} FailuresIgnoreCompletionOrder(o1: seq<Outcome>, o2: seq<Outcome>)
    requires multiset(o1) == multiset(o2)
    ensures multiset(FailedResponses(o1)) == multiset(FailedResponses(o2))
    decreases |o1|
  {
    if o1 == [] {
      assert |o2| == |multiset(o2)| == 0;
    } else {
      var n := |o1| - 1;
      var x := o1[n];
      var init := o1[..n];
      assert o1 == init + [x] + [];
      assert x in multiset(o2);
      var j :| 0 <= j < |o2| && o2[j] == x;
      var p, q := o2[..j], o2[j + 1..];
      assert o2 == p + [x] + q;
      MultisetSplit(init, [x], []);
      MultisetSplit(p, [x], q);
      assert init + [] == init;
      MultisetCancel(multiset(init), multiset(p + q), x);
      FailuresIgnoreCompletionOrder(init, p + q);
      FailuresWithout(init, x, []);
      FailuresWithout(p, x, q);
    }
  }

  /**
   * An updater bound to one index and one document type. Both are fixed at
   * construction and never change, so every action it builds targets them.
   */
  class SearchIndexUpdater {
    const indexName: string
    const docType: string
    /** Stored and never read. */
    const scrollTtl: string

    constructor (indexName: string, docType: string := "item", scrollTtl: string := "5m")
      ensures this.indexName == indexName && this.docType == docType && this.scrollTtl == scrollTtl
    {
      this.indexName := indexName;
      this.docType := docType;
      this.scrollTtl := scrollTtl;
    }

    /**
     * The bulk action for one item: an update of document `int(itemId)` of the
     * updater's index and type with `updateDoc`, or the exception `int` raises.
     */
    function PrepareUpdate(itemId: Value, updateDoc: Value): (r: Result<Action, CoercionError>)
      ensures r.Success? <==> IntOf(itemId).Success?
      ensures r.Success? ==> r.value.opType == OpUpdate
      ensures r.Success? ==> r.value.index == indexName && r.value.docType == docType
      ensures r.Success? ==> r.value.id == IntOf(itemId).value
      ensures r.Success? ==> r.value.doc == updateDoc
      ensures r.Failure? ==> r.error == IntOf(itemId).error
    {
      match IntOf(itemId)
      case Success(id) => Success(Action(indexName, docType, OpUpdate, id, updateDoc))
      case Failure(e) => Failure(e)
    }

    /**
     * An identifier given as the decimal string of n updates document n, unless
     * the string has more digits than `int` reads.
     */
    lemma DecimalStringId(n: int, updateDoc: Value)
      ensures PrepareUpdate(Str(ShowInt(n)), updateDoc) ==
              if MaxStrDigits == 0 || |ShowNat(Magnitude(n))| <= MaxStrDigits
              then Success(Action(indexName, docType, OpUpdate, n, updateDoc))
              else Failure(ValueError)
    {
      IntOfDecimalString(n);
    }

    /**
     * The lazy sequence of actions handed to the bulk helper: element i is what
     * pulling the i-th action yields, the action for the i-th item or the
     * exception raised while building it.
     */
    function UpdateActions(items: seq<(Value, Value)>): (r: seq<Result<Action, CoercionError>>)
      ensures |r| == |items|
      ensures forall i :: 0 <= i < |items| ==> r[i] == PrepareUpdate(items[i].0, items[i].1)
    {
      if items == [] then []
      else [PrepareUpdate(items[0].0, items[0].1)] + UpdateActions(items[1..])
    }

    /**
     * Every action built for a bulk call is an update of the configured index and
     * type, and an item yields an action exactly when its identifier converts.
     */
    lemma ActionsTargetConfiguredIndex(items: seq<(Value, Value)>, i: nat)
      requires i < |items|
      ensures UpdateActions(items)[i].Success? <==> IntOf(items[i].0).Success?
      ensures UpdateActions(items)[i].Success? ==>
                var a := UpdateActions(items)[i].value;
                a.opType == OpUpdate && a.index == indexName && a.docType == docType && a.doc == items[i].1
    {
    }

    /**
     * Bulk update: hand the actions to the bulk helper, walk its outcomes once,
     * and return the responses of the failed ones. If the helper raises, the
     * exception propagates and no list is returned. `postfix` is the error count
     * the progress display shows at the end (it is shown only when verbose).
     */
    method IndexItems(items: seq<(Value, Value)>,
                      parallelBulk: (seq<Result<Action, CoercionError>>, bool) -> BulkRun,
                      verbose: bool := false, raiseOnError: bool := false)
      returns (r: Result<seq<Value>, Raised>, ghost postfix: nat)
      ensures var run := parallelBulk(UpdateActions(items), raiseOnError);
              r == if run.raised.Some? then Failure(run.raised.value)
                   else Success(FailedResponses(run.outcomes))
      ensures var run := parallelBulk(UpdateActions(items), raiseOnError);
              postfix == if verbose then |FailedResponses(run.outcomes)| else 0
    {
      var actions := UpdateActions(items);
      var run := parallelBulk(actions, raiseOnError);
      var errors: seq<Value> := [];
      postfix := |errors|;
      for i := 0 to |run.outcomes|
        invariant errors == FailedResponses(run.outcomes[..i])
        invariant postfix == if verbose then |errors| else 0
      {
        assert run.outcomes[..i + 1][..i] == run.outcomes[..i];
        var outcome := run.outcomes[i];
        if !outcome.success {
          errors := errors + [outcome.response];
          if verbose {
            postfix := |errors|;
          }
        }
      }
      assert run.outcomes[..|run.outcomes|] == run.outcomes;
      if run.raised.Some? {
        return Failure(run.raised.value), postfix;
      }
      return Success(errors), postfix;
    }
  }
}
