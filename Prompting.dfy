/** How a query turns its search results into the two strings handed to
    the generation service: the document context and the conversation
    history. Both are built by appending one block per result, in the rank
    order of the search. */
module Prompting {
  import opened Records
  import opened Strings
  import opened Sequences

  /** `str(v)` for a metadata value. */
  function ValueText(v: Value): string
  {
    match v
    case Str(s) => s
    case Int(n) => IntToString(n)
    case Flag(b) => if b then "True" else "False"
  }

  /** The context block of one document passage. */
  function ContextBlock(r: Record): (block: string)
    requires DocRecord(r)
    ensures |block| > 0
  {
    "Arquivo: " + FileName(r) + "\nPágina: " + ValueText(r.metadata[PAGE_NUMBER])
    + "\nTexto: " + r.content + "\n\n"
  }

  /** The context string for the ranked results: one block per passage. */
  function ContextOf(results: seq<Record>): (context: string)
    requires DocIndex(results)
    ensures context == "" <==> results == []
  {
    if results == [] then ""
    else ContextOf(results[..|results| - 1]) + ContextBlock(results[|results| - 1])
  }

  /** Each further result adds its block at the end. */
  lemma ContextOfSnoc(results: seq<Record>, r: Record)
    requires DocIndex(results + [r])
    ensures DocIndex(results) && DocRecord(r)
    ensures ContextOf(results + [r]) == ContextOf(results) + ContextBlock(r)
  {
    var c := results + [r];
    assert c[..|c| - 1] == results;
    assert c[|c| - 1] == r;
  }

  /** The context of two runs of results is the context of the first
      followed by that of the second. */
  lemma {:induction false} ContextOfAppend(a: seq<Record>, b: seq<Record>)
    requires DocIndex(a) && DocIndex(b)
    ensures DocIndex(a + b)
    ensures ContextOf(a + b) == ContextOf(a) + ContextOf(b)
    decreases |b|
  {
    DocIndexAppend(a, b);
    if b == [] {
      assert a + b == a;
    } else {
      var b', last := b[..|b| - 1], b[|b| - 1];
      SplitLast(a, b);
      ContextOfSnoc(a + b', last);
      ContextOfSnoc(b', last);
      ContextOfAppend(a, b');
      AppendAssoc(ContextOf(a), ContextOf(b'), ContextBlock(last));
    }
  }

  /** A record of the chat-history index that carries a conversation turn. */
  predicate HasTurn(r: Record)
  {
    USER in r.metadata && AI in r.metadata
  }

  function HistoryBlock(r: Record): (block: string)
    requires HasTurn(r)
    ensures |block| > 0
  {
    "Usuário: " + ValueText(r.metadata[USER]) + "\nIA: " + ValueText(r.metadata[AI]) + "\n\n"
  }

  /** The history string for the ranked results: one block per result that
      carries both `user` and `ai`; the others are skipped. */
  function HistoryOf(results: seq<Record>): (history: string)
    ensures history == "" <==> forall i :: 0 <= i < |results| ==> !HasTurn(results[i])
  {
    if results == [] then ""
    else
      var last := results[|results| - 1];
      assert forall i :: 0 <= i < |results| - 1 ==> results[..|results| - 1][i] == results[i];
      HistoryOf(results[..|results| - 1]) + (if HasTurn(last) then HistoryBlock(last) else "")
  }

  /** Each further result adds its block at the end when it carries a
      turn, and nothing otherwise. */
  lemma HistoryOfSnoc(results: seq<Record>, r: Record)
    ensures HistoryOf(results + [r]) == HistoryOf(results) + (if HasTurn(r) then HistoryBlock(r) else "")
  {
    var c := results + [r];
    assert c[..|c| - 1] == results;
  }

  /** The history of two runs of results is the history of the first
      followed by that of the second. */
  lemma {:induction false} HistoryOfAppend(a: seq<Record>, b: seq<Record>)
    ensures HistoryOf(a + b) == HistoryOf(a) + HistoryOf(b)
    decreases |b|
  {
    if b == [] {
      assert a + b == a;
    } else {
      var b', last := b[..|b| - 1], b[|b| - 1];
      SplitLast(a, b);
      HistoryOfSnoc(a + b', last);
      HistoryOfSnoc(b', last);
      HistoryOfAppend(a, b');
      AppendAssoc(HistoryOf(a), HistoryOf(b'), if HasTurn(last) then HistoryBlock(last) else "");
    }
  }

  /** Every record of a well-formed chat-history index carries a turn, so
      a history built from such results skips none of them. */
  lemma ChatRecordHasTurn(r: Record)
    requires ChatRecord(r)
    ensures HasTurn(r)
  {
  }

  /** Results drawn from the chat-history index contribute one block each,
      so the history is empty only when the search found nothing. */
  lemma ChatHistoryComplete(results: seq<Record>)
    requires ChatIndex(results)
    ensures HistoryOf(results) == "" <==> results == []
  {
    if results != [] {
      ChatRecordHasTurn(results[0]);
    }
  }

  /** `context += ...` over the document results. */
  method BuildContext(results: seq<Record>) returns (context: string)
    requires DocIndex(results)
    ensures context == ContextOf(results)
  {
    context := "";
    var i := 0;
    while i < |results|
      invariant 0 <= i <= |results|
      invariant context == ContextOf(results[..i])
    {
      assert results[..i + 1][..i] == results[..i];
      context := context + ContextBlock(results[i]);
      i := i + 1;
    }
    assert results[..|results|] == results;
  }

  /** `history += ...` over the chat-history results that carry a turn. */
  method BuildHistory(results: seq<Record>) returns (history: string)
    ensures history == HistoryOf(results)
  {
    history := "";
    var i := 0;
    while i < |results|
      invariant 0 <= i <= |results|
      invariant history == HistoryOf(results[..i])
    {
      assert results[..i + 1][..i] == results[..i];
      if HasTurn(results[i]) {
        history := history + HistoryBlock(results[i]);
      }
      i := i + 1;
    }
    assert results[..|results|] == results;
  }
}
