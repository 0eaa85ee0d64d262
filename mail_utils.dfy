// src/utils.py: the decorator that turns an exception into a default
// value, and the pruning of a Gmail listing to one message per thread.

module MailUtils {
  import opened Base

  // ---------------------------------------------------------------
  // error_logger
  // ---------------------------------------------------------------

  /**
   * A call wrapped by `error_logger(default, reraise)`: a value passes
   * through, an exception becomes `default` unless `reraise` is set, in
   * which case it propagates unchanged.
   */
  function Logged<T>(outcome: Result<T>, default: T, reraise: bool): (r: Result<T>)
    ensures r.Err? <==> outcome.Err? && reraise
    ensures r.Err? ==> r == outcome
    ensures outcome.Ok? ==> r == outcome
    ensures outcome.Err? && !reraise ==> r.value == default
  {
    match outcome
    case Ok(v) => Ok(v)
    case Err(e) => if reraise then Err(e) else Ok(default)
  }

  // ---------------------------------------------------------------
  // prune_by_threadId
  // ---------------------------------------------------------------

  /** An entry of a Gmail message listing. */
  datatype Message = Message(id: string, threadId: string)

  function Threads(ms: seq<Message>): set<string> {
    set m | m in ms :: m.threadId
  }

  /** The first message of every thread, threads in order of first appearance. */
  function FirstOfThreads(ms: seq<Message>): seq<Message>
    decreases |ms|
  {
    if ms == [] then []
    else
      var n := |ms| - 1;
      var before := FirstOfThreads(ms[..n]);
      if ms[n].threadId in Threads(ms[..n]) then before else before + [ms[n]]
  }

  /** Position of the first message of thread `t`. */
  function FirstIndex(ms: seq<Message>, t: string): (r: nat)
    requires t in Threads(ms)
    ensures r < |ms| && ms[r].threadId == t
    ensures forall q :: 0 <= q < r ==> ms[q].threadId != t
    decreases |ms|
  {
    var n := |ms| - 1;
    ThreadsSnoc(ms);
    if t in Threads(ms[..n]) then
      var k := FirstIndex(ms[..n], t);
      assert ms[k] == ms[..n][k];
      assert forall q :: 0 <= q < k ==> ms[q] == ms[..n][q];
      k
    else
      assert forall q :: 0 <= q < n ==> ms[q] == ms[..n][q] && ms[q] in ms[..n];
      n
  }

  lemma ThreadsSnoc(ms: seq<Message>)
    requires ms != []
    ensures Threads(ms) == Threads(ms[..|ms| - 1]) + {ms[|ms| - 1].threadId}
  {
    assert ms == ms[..|ms| - 1] + [ms[|ms| - 1]];
  }

  /** One more message: it is appended exactly when its thread is new. */
  lemma FirstOfThreadsSnoc(ms: seq<Message>, i: nat)
    requires i < |ms|
    ensures FirstOfThreads(ms[..i + 1]) ==
              if ms[i].threadId in Threads(ms[..i]) then FirstOfThreads(ms[..i]) else FirstOfThreads(ms[..i]) + [ms[i]]
    ensures Threads(ms[..i + 1]) == Threads(ms[..i]) + {ms[i].threadId}
  {
    var p := ms[..i + 1];
    assert p[..i] == ms[..i] && p[i] == ms[i];
    ThreadsSnoc(p);
  }

  /**
   * The pruned listing has one entry per thread of the input, each the
   * thread's first message, in the order the threads first appear; so it is
   * never longer than the input and all its entries come from it.
   */
  lemma {:induction false} FirstOfThreadsRule(ms: seq<Message>)
    ensures var r := FirstOfThreads(ms);
            |r| <= |ms| &&
            (forall i, j :: 0 <= i < j < |r| ==> r[i].threadId != r[j].threadId) &&
            Threads(r) == Threads(ms) &&
            (forall k :: 0 <= k < |r| ==> r[k].threadId in Threads(ms) && r[k] == ms[FirstIndex(ms, r[k].threadId)]) &&
            (forall i, j :: 0 <= i < j < |r| ==> FirstIndex(ms, r[i].threadId) < FirstIndex(ms, r[j].threadId))
    decreases |ms|
  {
    if ms != [] {
      var n := |ms| - 1;
      var init := ms[..n];
      var before := FirstOfThreads(init);
      FirstOfThreadsRule(init);
      ThreadsSnoc(ms);
      var t := ms[n].threadId;
      forall s | s in Threads(init)
        ensures FirstIndex(ms, s) == FirstIndex(init, s)
      {
        var k := FirstIndex(init, s);
        assert ms[k] == init[k];
        assert forall q :: 0 <= q < k ==> ms[q] == init[q];
      }
      if t !in Threads(init) {
        assert FirstIndex(ms, t) == n;
        var r := before + [ms[n]];
        assert Threads(r) == Threads(before) + {t} by {
          assert r[..|r| - 1] == before;
          ThreadsSnoc(r);
        }
        forall i | 0 <= i < |before|
          ensures r[i].threadId != t && r[i].threadId in Threads(init)
        {
          assert before[i] in before;
        }
      }
    }
  }

  const EmptyListing := "AssertionError: len(messages) != 0"

  /**
   * `prune_by_threadId`: an empty listing fails its assertion; otherwise
   * the ids are grouped by thread in a dictionary that keeps its keys in
   * insertion order, and each thread's first id is taken.
   */
  method PruneByThreadId(messages: seq<Message>) returns (r: Result<seq<Message>>)
    ensures r.Err? <==> messages == []
    ensures r.Err? ==> r.error == EmptyListing
    ensures r.Ok? ==> r.value == FirstOfThreads(messages)
  {
    if |messages| == 0 {
      return Err(EmptyListing);
    }
    var pruned := FirstIdsByThread(messages);
    r := Ok(pruned);
  }

  /**
   * The `defaultdict` loop and the comprehension over it: the ids grouped
   * by thread, keys in insertion order, each thread's first id taken.
   */
  method FirstIdsByThread(messages: seq<Message>) returns (r: seq<Message>)
    ensures r == FirstOfThreads(messages)
  {
    var groups: map<string, seq<string>> := map[];
    var order: seq<string> := [];
    ghost var firsts: seq<Message> := [];
    var i := 0;
    while i < |messages|
      invariant 0 <= i <= |messages|
      invariant firsts == FirstOfThreads(messages[..i])
      invariant groups.Keys == Threads(messages[..i])
      invariant |order| == |firsts|
      invariant forall k :: 0 <= k < |order| ==>
                  order[k] == firsts[k].threadId && order[k] in groups &&
                  groups[order[k]] != [] && groups[order[k]][0] == firsts[k].id
    {
      var m := messages[i];
      FirstOfThreadsSnoc(messages, i);
      if m.threadId in groups {
        groups := groups[m.threadId := groups[m.threadId] + [m.id]];
      } else {
        groups := groups[m.threadId := [m.id]];
        order := order + [m.threadId];
        firsts := firsts + [m];
      }
      i := i + 1;
    }
    assert messages[..i] == messages;
    r := [];
    var j := 0;
    while j < |order|
      invariant 0 <= j <= |order|
      invariant r == FirstOfThreads(messages)[..j]
    {
      r := r + [Message(groups[order[j]][0], order[j])];
      j := j + 1;
    }
  }
}
