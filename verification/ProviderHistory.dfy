/** The history a running turn sends, whatever its history begins with (src/core/agent.ts:1276-1316). */
module ProviderHistory {
  import opened Messages
  import opened TurnHistory
  import TurnProtocol
  import ConversationShape

  /** What stands in for the journal before its visible part. */
  datatype Base =
    | Nothing
    | Summary(content: string)             // the projection of the summary chain, in the user's role
    | ForkSeed(messages: seq<Message>)     // the inherited context

  function BaseMessages(base: Base): seq<Message> {
    match base
    case Nothing => []
    case Summary(content) => [User(content, [])]
    case ForkSeed(messages) => messages
  }

  /** A fork seed is admitted only in the shape of completed turns (src/core/fork-context.ts:141). */
  predicate Admissible(base: Base) {
    base.ForkSeed? ==> ConversationShape.Shape(base.messages)
  }

  lemma {:induction false} BaseIsPaired(base: Base)
    requires Admissible(base)
    ensures Paired(BaseMessages(base))
  {
    match base
    case Nothing =>
    case Summary(content) => assert [User(content, [])][1..] == [];
    case ForkSeed(messages) => ConversationShape.ShapeExactly(messages);
  }

  /** Over every run of the protocol, and from any base: what a running turn sends is well paired. */
  lemma {:induction false} SentIsPaired(trace: seq<TurnProtocol.System>, steps: seq<TurnProtocol.Step>, k: nat, i: nat,
        v: View, base: Base)
    requires TurnProtocol.Behaviour(trace, steps) && k < |trace| && TurnProtocol.LoopReads(trace[k], i)
    requires v.events == trace[k].journal && v.covered == LatestCovered(v.events, |v.events|)
    requires v.base == BaseMessages(base) && Admissible(base)
    ensures v.Valid()
    ensures forall m :: 0 <= m < |Materialized(v)| && Materialized(v)[m].Assistant? ==>
              EachCallAnsweredOnce(Materialized(v), m)
    ensures forall m :: 0 <= m < |Materialized(v)| && Materialized(v)[m].Tool? ==>
              AnswersNearestStep(Materialized(v), m)
  {
    BaseIsPaired(base);
    TurnProtocol.ProviderHistoryIsPaired(trace, steps, k, i, v);
  }
}
