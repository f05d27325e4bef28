/** Messages, execution records and the status vocabulary shared by every component
    (`src/protocol/`, `src/constants.ts`). */
module Protocol {
  datatype Option<+T> = None | Some(value: T)

  /** JSON values; arrays are not distinguished from objects because nothing here looks inside. */
  datatype Json = JNull | JText(text: string) | JObject(fields: map<string, Json>)

  type Meta = map<string, Json>

  datatype Header = Header(
    messageId: string,
    sessionId: string,
    traceId: string,
    sourceAgentType: string,
    targetAgentType: string,
    parentMessageId: string,
    taskGroupId: string,
    userCode: string,
    userName: string,
    metadata: Meta)

  datatype Command =
    | Ask(header: Header, content: Json, waitForReply: bool, extraPayload: Meta)
    | Resume(header: Header, content: Json, status: string, replyData: Json, extraPayload: Meta)

  /** The execution record a dispatch writes and every later step reads. */
  datatype Record = Record(
    executionId: string,
    messageId: string,
    parentMessageId: string,
    sessionId: string,
    traceId: string,
    sourceAgentType: string,
    taskGroupId: string,
    targetAgentType: string,
    workerId: string,
    status: string,
    metadata: Meta,
    createdAt: int,
    cancelRequested: bool,
    cancelReason: string)

  /** One sub-task's answer, as kept in a task group's results hash. */
  datatype StoredResult = StoredResult(
    status: string,
    replyData: Json,
    content: Json,
    targetAgentType: string,
    metadata: Meta,
    extraPayload: Meta)

  // ----- statuses -----

  const RUNNING := "RUNNING"
  const QUEUED := "QUEUED"
  const COMPLETED := "COMPLETED"
  const FAILED := "FAILED"
  const CANCELLED := "CANCELLED"
  const CANCELLING := "CANCELLING"
  const WAITING_AGENT := "WAITING_AGENT"
  const WAITING_USER := "WAITING_USER"
  const WAITING_FOR_GROUP := "WAITING_AGENT: waiting_for_group"
  const GROUP_ABORTED := "CANCELLED: group_aborted"

  /** The source agent type a client dispatch records for itself; it names no agent. */
  const CLIENT := "client"

  const SINGLE_GROUP_PREFIX := "tg-single-"

  predicate IsTerminal(status: string) {
    status == COMPLETED || status == FAILED || status == CANCELLED
  }

  predicate IsSuspended(status: string) {
    status == WAITING_AGENT || status == WAITING_USER
  }

  /** Where a single call's result is stored: a group of size one named after the call. */
  function SingleCallGroup(childMessageId: string): string {
    SINGLE_GROUP_PREFIX + childMessageId
  }

  predicate IsSpace(c: char) {
    || '\t' <= c <= '\r' || c == ' ' || c == '\U{00A0}' || c == '\U{1680}' || '\U{2000}' <= c <= '\U{200A}'
    || c == '\U{2028}' || c == '\U{2029}' || c == '\U{202F}' || c == '\U{205F}' || c == '\U{3000}' || c == '\U{FEFF}'
  }

  function TrimLeft(text: string): string {
    if text != "" && IsSpace(text[0]) then TrimLeft(text[1..]) else text
  }

  function TrimRight(text: string): string {
    if text != "" && IsSpace(text[|text| - 1]) then TrimRight(text[..|text| - 1]) else text
  }

  function BeforeColon(text: string): string {
    if text == "" || text[0] == ':' then "" else [text[0]] + BeforeColon(text[1..])
  }

  /** `value.split(':')[0].trim()`: a status without the reason it may be decorated with. */
  function BaseStatus(status: string): string {
    TrimRight(TrimLeft(BeforeColon(status)))
  }

  lemma {:induction false} BeforeColonStops(base: string, rest: string)
    requires ':' !in base
    requires rest == "" || rest[0] == ':'
    ensures BeforeColon(base + rest) == base
  {
    if base == "" {
      assert base + rest == rest;
    } else {
      assert (base + rest)[1..] == base[1..] + rest;
      BeforeColonStops(base[1..], rest);
    }
  }

  /** Decorating a plain status never changes what a sweep reads in it. */
  lemma DecorationIsIgnored(base: string, reason: string)
    requires ':' !in base
    requires base != "" && !IsSpace(base[0]) && !IsSpace(base[|base| - 1])
    ensures BaseStatus(base) == base
    ensures BaseStatus(base + ":" + reason) == base
  {
    BeforeColonStops(base, "");
    assert base + "" == base;
    BeforeColonStops(base, ":" + reason);
    assert base + (":" + reason) == base + ":" + reason;
  }

  predicate AllSpace(text: string) {
    forall i :: 0 <= i < |text| ==> IsSpace(text[i])
  }

  lemma {:induction false} TrimLeftDrops(pad: string, text: string)
    requires AllSpace(pad)
    ensures TrimLeft(pad + text) == TrimLeft(text)
  {
    if pad == "" {
      assert pad + text == text;
    } else {
      assert (pad + text)[1..] == pad[1..] + text;
      TrimLeftDrops(pad[1..], text);
    }
  }

  lemma {:induction false} TrimRightDrops(text: string, pad: string)
    requires AllSpace(pad)
    ensures TrimRight(text + pad) == TrimRight(text)
  {
    if pad == "" {
      assert text + pad == text;
    } else {
      var n := |pad| - 1;
      assert (text + pad)[..|text + pad| - 1] == text + pad[..n];
      TrimRightDrops(text, pad[..n]);
    }
  }

  /** Nor does white space around the plain status. */
  lemma PaddingIsIgnored(before: string, base: string, behind: string, reason: string)
    requires ':' !in before && ':' !in base && ':' !in behind && AllSpace(before) && AllSpace(behind)
    requires base != "" && !IsSpace(base[0]) && !IsSpace(base[|base| - 1])
    ensures BaseStatus(before + base + behind) == base
    ensures BaseStatus(before + base + behind + ":" + reason) == base
  {
    var padded := before + base + behind;
    BeforeColonStops(padded, "");
    BeforeColonStops(padded, ":" + reason);
    assert padded + "" == padded && padded + (":" + reason) == padded + ":" + reason;
    assert padded == before + (base + behind);
    TrimLeftDrops(before, base + behind);
    assert (base + behind)[0] == base[0];
    TrimRightDrops(base, behind);
  }

  lemma StatusesDiffer()
    ensures !IsTerminal(RUNNING) && !IsTerminal(QUEUED) && !IsTerminal(WAITING_AGENT) && !IsTerminal(WAITING_USER)
    ensures !IsTerminal(WAITING_FOR_GROUP) && !IsTerminal(GROUP_ABORTED) && !IsTerminal("") && !IsTerminal(CANCELLING)
    ensures !IsSuspended(RUNNING) && !IsSuspended(QUEUED)
    ensures !IsSuspended(COMPLETED) && !IsSuspended(FAILED) && !IsSuspended(CANCELLED)
    ensures RUNNING != QUEUED && COMPLETED != QUEUED && FAILED != QUEUED && CANCELLED != QUEUED
  {
    assert RUNNING[0] == 'R' && COMPLETED[0] == 'C' && CANCELLED[0] == 'C' && FAILED[0] == 'F' && QUEUED[0] == 'Q';
    assert WAITING_AGENT[0] == 'W' && WAITING_USER[0] == 'W';
    assert |CANCELLING| == 10 && |COMPLETED| == 9 && |CANCELLED| == 9 && |FAILED| == 6;
  }

  lemma WaitingIsSuspended()
    ensures IsSuspended(WAITING_AGENT) && IsSuspended(WAITING_USER) && !IsSuspended(FAILED) && !IsSuspended(CANCELLED)
  {
    StatusesDiffer();
  }

  lemma RunningBases()
    ensures BaseStatus(RUNNING) == RUNNING && BaseStatus(QUEUED) == QUEUED
  {
    DecorationIsIgnored(RUNNING, "");
    DecorationIsIgnored(QUEUED, "");
  }

  lemma FinishedBases()
    ensures BaseStatus(COMPLETED) == COMPLETED && BaseStatus(FAILED) == FAILED
  {
    DecorationIsIgnored(COMPLETED, "");
    DecorationIsIgnored(FAILED, "");
  }

  lemma CancellingBase()
    ensures BaseStatus(CANCELLING) == CANCELLING
  {
    DecorationIsIgnored(CANCELLING, "");
  }

  lemma WaitingAgentBase()
    ensures BaseStatus(WAITING_AGENT) == WAITING_AGENT
  {
    DecorationIsIgnored(WAITING_AGENT, "");
  }

  lemma WaitingUserBase()
    ensures BaseStatus(WAITING_USER) == WAITING_USER
  {
    DecorationIsIgnored(WAITING_USER, "");
  }

  /** A caller parked on a group still reads as suspended. */
  lemma GroupWaitBase()
    ensures BaseStatus(WAITING_FOR_GROUP) == WAITING_AGENT
  {
    assert WAITING_AGENT + ":" + " waiting_for_group" == WAITING_FOR_GROUP;
    DecorationIsIgnored(WAITING_AGENT, " waiting_for_group");
  }

  /** The reply of an aborted group reads as cancelled. */
  lemma GroupAbortBase()
    ensures BaseStatus(CANCELLED) == CANCELLED && BaseStatus(GROUP_ABORTED) == CANCELLED
  {
    assert CANCELLED + ":" + " group_aborted" == GROUP_ABORTED;
    DecorationIsIgnored(CANCELLED, " group_aborted");
  }
}
