/** The message log of an agent run and the pairing of tool calls with tool results. */
module Messages {
  datatype CallRef = CallRef(id: string, name: string, arguments: string)

  datatype Message =
    | System(text: string)
    | User(text: string)
    | Assistant(text: string)
    | ToolCalls(calls: seq<CallRef>)   // an assistant message that calls tools
    | ToolResult(callId: string, content: string)

  predicate Answers(results: seq<Message>, calls: seq<CallRef>) {
    && |results| == |calls|
    && forall i :: 0 <= i < |calls| ==> results[i].ToolResult? && results[i].callId == calls[i].id
  }

  /** Every message with tool calls is followed at once by one result per call,
      same ids, same order, and results stand nowhere else. */
  predicate Paired(log: seq<Message>)
    decreases |log|
  {
    if log == [] then true
    else match log[0]
      case ToolResult(_, _) => false
      case ToolCalls(calls) =>
        |calls| < |log| && Answers(log[1..][..|calls|], calls) && Paired(log[1..][|calls|..])
      case _ => Paired(log[1..])
  }

  /** After a paired log the rest decides. */
  lemma {:induction false} PairedAppend(a: seq<Message>, b: seq<Message>)
    requires Paired(a)
    ensures Paired(a + b) <==> Paired(b)
    decreases |a|
  {
    var all := a + b;
    if a == [] {
      assert all == b;
    } else if a[0].ToolCalls? {
      var n := |a[0].calls|;
      assert all[1..][..n] == a[1..][..n];
      assert all[1..][n..] == a[1..][n..] + b;
      PairedAppend(a[1..][n..], b);
    } else {
      assert all[1..] == a[1..] + b;
      PairedAppend(a[1..], b);
    }
  }

  /** A paired log may be cut exactly where a message other than a tool result follows. */
  lemma {:induction false} PairedSuffix(log: seq<Message>, i: nat)
    requires Paired(log) && i <= |log|
    ensures Paired(log[i..]) <==> i == |log| || !log[i].ToolResult?
    decreases |log|
  {
    if i == 0 {
      assert log[0..] == log;
    } else if log[0].ToolCalls? {
      var n := |log[0].calls|;
      if i <= n {
        assert log[1..][..n][i - 1] == log[i];
        assert log[i..][0] == log[i];
      } else {
        var rest := log[1..][n..];
        PairedSuffix(rest, i - 1 - n);
        assert rest[i - 1 - n..] == log[i..];
        assert i < |log| ==> rest[i - 1 - n] == log[i];
      }
    } else {
      PairedSuffix(log[1..], i - 1);
      assert log[1..][i - 1..] == log[i..];
    }
  }

  /** Logs without tool traffic are paired. */
  lemma {:induction false} PlainPaired(log: seq<Message>)
    requires forall m :: m in log ==> !m.ToolResult? && !m.ToolCalls?
    ensures Paired(log)
  {
    if log != [] {
      PlainPaired(log[1..]);
    }
  }

  /** Such messages neither break a log they follow nor mend it. */
  lemma {:induction false} PlainAfter(a: seq<Message>, b: seq<Message>)
    requires forall m :: m in b ==> !m.ToolResult? && !m.ToolCalls?
    ensures Paired(a + b) <==> Paired(a)
    decreases |a|
  {
    var all := a + b;
    if a == [] {
      assert all == b;
      PlainPaired(b);
    } else if a[0].ToolCalls? {
      var n := |a[0].calls|;
      if n < |a| {
        assert all[1..][..n] == a[1..][..n];
        assert all[1..][n..] == a[1..][n..] + b;
        PlainAfter(a[1..][n..], b);
      } else if n < |all| {
        assert all[1..][..n][|a| - 1] == b[0];
      }
    } else {
      assert all[1..] == a[1..] + b;
      PlainAfter(a[1..], b);
    }
  }

  /** One block: the calls and their results. */
  lemma BlockPaired(calls: seq<CallRef>, results: seq<Message>)
    requires Answers(results, calls)
    ensures Paired([ToolCalls(calls)] + results)
  {
    var block := [ToolCalls(calls)] + results;
    assert block[1..] == results && results[..|calls|] == results && results[|calls|..] == [];
  }

  /** Pairing reads kinds, ids and call lists only. */
  ghost predicate SameShape(a: seq<Message>, b: seq<Message>) {
    && |a| == |b|
    && forall i :: 0 <= i < |a| ==>
         a[i] == b[i] || (a[i].ToolResult? && b[i].ToolResult? && a[i].callId == b[i].callId)
  }

  lemma SameAnswers(a: seq<Message>, b: seq<Message>, calls: seq<CallRef>)
    requires SameShape(a, b)
    ensures Answers(a, calls) ==> Answers(b, calls)
  {
    if Answers(a, calls) {
      assert forall i :: 0 <= i < |calls| ==> a[i].ToolResult? && b[i].ToolResult?;
    }
  }

  lemma {:induction false} ShapePaired(a: seq<Message>, b: seq<Message>)
    requires SameShape(a, b)
    ensures Paired(a) <==> Paired(b)
    decreases |a|
  {
    if a != [] {
      if a[0].ToolCalls? {
        var n := |a[0].calls|;
        if n < |a| {
          ShapePaired(a[1..][n..], b[1..][n..]);
          SameAnswers(a[1..][..n], b[1..][..n], a[0].calls);
          SameAnswers(b[1..][..n], a[1..][..n], a[0].calls);
        }
      } else {
        ShapePaired(a[1..], b[1..]);
      }
    }
  }
}
