/** The bulk-delete loops of the bot's entry point: `executeAutoClean`, run
    by each auto-clean timer, and the `/청소` (clean) command. A channel is
    its messages, newest first; the clock is a fixed `now` in milliseconds.
    Each round fetches the newest 100 messages, keeps those younger than two
    weeks, bulk-deletes them and adds the number deleted to the total. */
module Cleanup {
  import opened Wrappers

  /** `messages.fetch({ limit: 100 })`. */
  const FetchLimit: nat := 100
  /** Two weeks in milliseconds: Discord's bulk-delete age limit. */
  const MaxAgeMs: int := 14 * 24 * 60 * 60 * 1000
  /** `amount` when the `개수` (count) option is omitted. */
  const DefaultAmount: int := 100

  datatype Message = Message(id: nat, createdTimestamp: int)

  /** `msg.createdTimestamp > twoWeeksAgo`, strictly. */
  predicate Deletable(m: Message, now: int) {
    m.createdTimestamp > now - MaxAgeMs
  }

  /** The newest messages, at most `FetchLimit` of them. */
  function Fetch(msgs: seq<Message>): (batch: seq<Message>)
  {
    if |msgs| <= FetchLimit then msgs else msgs[..FetchLimit]
  }

  /** The fetch returns the newest `min(|msgs|, FetchLimit)` messages. */
  lemma FetchNewest(msgs: seq<Message>)
    ensures |Fetch(msgs)| == if |msgs| < FetchLimit then |msgs| else FetchLimit
    ensures Fetch(msgs) == msgs[..|Fetch(msgs)|]
  {
  }

  /** `messages.filter(msg => msg.createdTimestamp > twoWeeksAgo)`. */
  function DeletableMessages(s: seq<Message>, now: int): (r: seq<Message>)
    ensures |r| <= |s|
    decreases |s|
  {
    if |s| == 0 then []
    else if Deletable(s[0], now) then [s[0]] + DeletableMessages(s[1..], now)
    else DeletableMessages(s[1..], now)
  }

  /** The messages the filter drops: two weeks old or older. */
  function Undeletable(s: seq<Message>, now: int): (r: seq<Message>)
    ensures |r| <= |s|
    decreases |s|
  {
    if |s| == 0 then []
    else if Deletable(s[0], now) then Undeletable(s[1..], now)
    else [s[0]] + Undeletable(s[1..], now)
  }

  function Ids(s: seq<Message>): set<nat>
    decreases |s|
  {
    if |s| == 0 then {} else {s[0].id} + Ids(s[1..])
  }

  /** Message ids (Discord snowflakes) are unique within a channel. */
  predicate DistinctIds(s: seq<Message>)
    decreases |s|
  {
    |s| == 0 || (s[0].id !in Ids(s[1..]) && DistinctIds(s[1..]))
  }

  /** Newest first: timestamps never increase along the channel. */
  predicate NewestFirst(s: seq<Message>) {
    forall i, j :: 0 <= i < j < |s| ==> s[i].createdTimestamp >= s[j].createdTimestamp
  }

  /** The channel after `bulkDelete`: every message whose id was submitted
      is gone, the others stay in order. */
  function Without(s: seq<Message>, ids: set<nat>): (r: seq<Message>)
    ensures |r| <= |s|
    decreases |s|
  {
    if |s| == 0 then []
    else if s[0].id in ids then Without(s[1..], ids)
    else [s[0]] + Without(s[1..], ids)
  }

  function Sum(s: seq<nat>): nat
    decreases |s|
  {
    if |s| == 0 then 0 else s[0] + Sum(s[1..])
  }

  /** A finished run of the loop: the size of each bulk delete, in order,
      and the channel left behind. */
  datatype Run = Run(batches: seq<nat>, remaining: seq<Message>)

  /** The cleanup loop from a channel `msgs` when `total` messages were
      already deleted. It stops when a round finds nothing deletable, when
      a count `limit` is given and the total reaches it, or when a bulk
      delete removes nothing (`deletedInBatch > 0` fails). */
  function Clean(msgs: seq<Message>, now: int, limit: Option<int>, total: nat): Run
    decreases |msgs|
  {
    var deletable := DeletableMessages(Fetch(msgs), now);
    if |deletable| == 0 then Run([], msgs)
    else
      var rest := Without(msgs, Ids(deletable));
      var n := |msgs| - |rest|;
      if limit.Some? && total + n >= limit.value then Run([n], rest)
      else if n == 0 then Run([n], rest)
      else
        var run := Clean(rest, now, limit, total + n);
        Run([n] + run.batches, run.remaining)
  }

  /** `interaction.options.getInteger('개수') || 100`: 0 is falsy too. */
  function Amount(count: Option<int>): (amount: int)
    ensures count.None? ==> amount == DefaultAmount
    ensures count.Some? && count.value != 0 ==> amount == count.value
    ensures count.Some? && 1 <= count.value <= 100 ==> 1 <= amount <= 100
  {
    if count.None? || count.value == 0 then DefaultAmount else count.value
  }

  /** Fixed-size chunks of `n`: the batch sizes that delete `n` messages
      `FetchLimit` at a time. */
  function Chunks(n: nat): seq<nat>
    decreases n
  {
    if n == 0 then [] else
      var k := if n < FetchLimit then n else FetchLimit;
      [k] + Chunks(n - k)
  }

  class Channel {
    /** The channel's messages, newest first. */
    var messages: seq<Message>

    constructor (messages: seq<Message>)
      ensures this.messages == messages
    {
      this.messages := messages;
    }

    /** `channel.messages.fetch({ limit: 100 })`. */
    method FetchMessages() returns (batch: seq<Message>)
      ensures batch == Fetch(messages)
    {
      batch := if |messages| <= FetchLimit then messages else messages[..FetchLimit];
    }

    /** `channel.bulkDelete(batch, true)`; returns `deleted.size`. */
    method BulkDelete(batch: seq<Message>) returns (deletedCount: nat)
      modifies this
      ensures messages == Without(old(messages), Ids(batch))
      ensures deletedCount == |old(messages)| - |messages|
    {
      var kept := Without(messages, Ids(batch));
      deletedCount := |messages| - |kept|;
      messages := kept;
    }
  }

  /** The loop invariant of both cleanup loops: `goal`, the run from the
      channel as it was at the start, is the batches done so far followed by
      the run from the channel as it is now. */
  ghost predicate CleanProgress(goal: Run, now: int, limit: Option<int>,
                                batches: seq<nat>, current: seq<Message>, total: nat)
  {
    && total == Sum(batches)
    && goal.batches == batches + Clean(current, now, limit, total).batches
    && goal.remaining == Clean(current, now, limit, total).remaining
  }

  /** Before the first round nothing is done and the whole run lies ahead. */
  lemma CleanStart(msgs: seq<Message>, now: int, limit: Option<int>)
    ensures CleanProgress(Clean(msgs, now, limit, 0), now, limit, [], msgs, 0)
  {
    assert [] + Clean(msgs, now, limit, 0).batches == Clean(msgs, now, limit, 0).batches;
  }

  /** A round that finds nothing deletable ends the loop with what was done. */
  lemma CleanDry(goal: Run, now: int, limit: Option<int>,
                 batches: seq<nat>, current: seq<Message>, total: nat)
    requires CleanProgress(goal, now, limit, batches, current, total)
    requires |DeletableMessages(Fetch(current), now)| == 0
    ensures goal == Run(batches, current) && total == Sum(batches)
  {
    assert batches + [] == batches;
  }

  /** One round of `Clean` written out, for a channel with something to
      delete in its newest 100 messages. */
  lemma CleanRound(msgs: seq<Message>, now: int, limit: Option<int>, total: nat)
    requires |DeletableMessages(Fetch(msgs), now)| > 0
    ensures var rest := Without(msgs, Ids(DeletableMessages(Fetch(msgs), now)));
      var n := |msgs| - |rest|;
      && (Stops(limit, total + n, n) ==> Clean(msgs, now, limit, total) == Run([n], rest))
      && (!Stops(limit, total + n, n) ==>
            Clean(msgs, now, limit, total).batches == [n] + Clean(rest, now, limit, total + n).batches)
      && (!Stops(limit, total + n, n) ==>
            Clean(msgs, now, limit, total).remaining == Clean(rest, now, limit, total + n).remaining)
  {
  }

  /** Whether the loop ends after a round that deleted `n` messages and
      brought the total to `total`. */
  predicate Stops(limit: Option<int>, total: nat, n: nat) {
    (limit.Some? && total >= limit.value) || n == 0
  }

  /** A round that took the channel from `current` to `next`, deleting `n`
      messages, and met the stop condition ends the loop with the run of
      the batches so far. */
  lemma CleanStepStop(goal: Run, now: int, limit: Option<int>,
                      batches: seq<nat>, current: seq<Message>, total: nat, next: seq<Message>, n: nat)
    requires CleanProgress(goal, now, limit, batches, current, total)
    requires |DeletableMessages(Fetch(current), now)| > 0
    requires next == Without(current, Ids(DeletableMessages(Fetch(current), now))) && n == |current| - |next|
    requires Stops(limit, total + n, n)
    ensures total + n == Sum(batches + [n])
    ensures goal == Run(batches + [n], next)
  {
    SumAppend(batches, n);
    CleanRound(current, now, limit, total);
    CleanStop(goal, now, limit, batches, current, total, next, n);
  }

  /** A round that did not meet the stop condition keeps the invariant. */
  lemma CleanStepGo(goal: Run, now: int, limit: Option<int>,
                    batches: seq<nat>, current: seq<Message>, total: nat, next: seq<Message>, n: nat)
    requires CleanProgress(goal, now, limit, batches, current, total)
    requires |DeletableMessages(Fetch(current), now)| > 0
    requires next == Without(current, Ids(DeletableMessages(Fetch(current), now))) && n == |current| - |next|
    requires !Stops(limit, total + n, n)
    ensures CleanProgress(goal, now, limit, batches + [n], next, total + n)
  {
    SumAppend(batches, n);
    CleanRound(current, now, limit, total);
    CleanContinue(goal, now, limit, batches, current, total, next, n);
  }

  lemma CleanStop(goal: Run, now: int, limit: Option<int>,
                  batches: seq<nat>, current: seq<Message>, total: nat, next: seq<Message>, n: nat)
    requires CleanProgress(goal, now, limit, batches, current, total)
    requires Clean(current, now, limit, total) == Run([n], next)
    ensures goal == Run(batches + [n], next)
  {
  }

  lemma CleanContinue(goal: Run, now: int, limit: Option<int>,
                      batches: seq<nat>, current: seq<Message>, total: nat, rest: seq<Message>, n: nat)
    requires CleanProgress(goal, now, limit, batches, current, total)
    requires Clean(current, now, limit, total).batches == [n] + Clean(rest, now, limit, total + n).batches
    requires Clean(current, now, limit, total).remaining == Clean(rest, now, limit, total + n).remaining
    requires total + n == Sum(batches + [n])
    ensures CleanProgress(goal, now, limit, batches + [n], rest, total + n)
  {
    AppendAssoc(batches, n, Clean(rest, now, limit, total + n).batches);
  }

  lemma AppendAssoc(a: seq<nat>, n: nat, b: seq<nat>)
    ensures a + ([n] + b) == (a + [n]) + b
  {
  }

  /** `executeAutoClean`: a missing channel is only logged; otherwise the
      loop runs with no count limit and the total is the sum of the batches. */
  method ExecuteAutoClean(channel: Channel?, now: int) returns (totalDeleted: nat)
    modifies channel
    ensures channel == null ==> totalDeleted == 0
    ensures channel != null ==>
      var run := Clean(old(channel.messages), now, None, 0);
      channel.messages == run.remaining && totalDeleted == Sum(run.batches)
  {
    if channel == null {
      return 0;
    }
    totalDeleted := 0;
    ghost var batches: seq<nat> := [];
    ghost var goal := Clean(old(channel.messages), now, None, 0);
    CleanStart(old(channel.messages), now, None);
    while true
      invariant CleanProgress(goal, now, None, batches, channel.messages, totalDeleted)
      decreases |channel.messages|
    {
      var messages := channel.FetchMessages();
      var deletable := DeletableMessages(messages, now);
      if |deletable| == 0 {
        CleanDry(goal, now, None, batches, channel.messages, totalDeleted);
        break;
      }
      ghost var current, done, total := channel.messages, batches, totalDeleted;
      var deletedInBatch := channel.BulkDelete(deletable);
      totalDeleted := totalDeleted + deletedInBatch;
      batches := batches + [deletedInBatch];
      if deletedInBatch == 0 {
        CleanStepStop(goal, now, None, done, current, total, channel.messages, deletedInBatch);
        break;
      }
      CleanStepGo(goal, now, None, done, current, total, channel.messages, deletedInBatch);
    }
  }

  /** The `/청소` loop: with `전체삭제` (all) it runs like the automatic one;
      otherwise it stops after the first round that brings the total to
      `amount` or more. */
  method Purge(channel: Channel, now: int, all: Option<bool>, count: Option<int>) returns (totalDeleted: nat)
    modifies channel
    ensures var limit := if all.GetOr(false) then None else Some(Amount(count));
      var run := Clean(old(channel.messages), now, limit, 0);
      channel.messages == run.remaining && totalDeleted == Sum(run.batches)
  {
    var isAll := all.GetOr(false);
    var amount := Amount(count);
    ghost var limit := if isAll then None else Some(amount);
    totalDeleted := 0;
    ghost var batches: seq<nat> := [];
    ghost var goal := Clean(old(channel.messages), now, limit, 0);
    CleanStart(old(channel.messages), now, limit);
    while true
      invariant CleanProgress(goal, now, limit, batches, channel.messages, totalDeleted)
      decreases |channel.messages|
    {
      var messages := channel.FetchMessages();
      var deletable := DeletableMessages(messages, now);
      if |deletable| == 0 {
        CleanDry(goal, now, limit, batches, channel.messages, totalDeleted);
        break;
      }
      ghost var current, done, total := channel.messages, batches, totalDeleted;
      var deletedInBatch := channel.BulkDelete(deletable);
      totalDeleted := totalDeleted + deletedInBatch;
      batches := batches + [deletedInBatch];
      if !isAll && totalDeleted >= amount {
        CleanStepStop(goal, now, limit, done, current, total, channel.messages, deletedInBatch);
        break;
      }
      if deletedInBatch == 0 {
        CleanStepStop(goal, now, limit, done, current, total, channel.messages, deletedInBatch);
        break;
      }
      CleanStepGo(goal, now, limit, done, current, total, channel.messages, deletedInBatch);
    }
  }

  // ---------------------------------------------------------------------------
  // Lemmas about sequences of messages

  lemma {:induction false} SumAppend(s: seq<nat>, x: nat)
    ensures Sum(s + [x]) == Sum(s) + x
    decreases |s|
  {
    if |s| > 0 {
      assert (s + [x])[1..] == s[1..] + [x];
      SumAppend(s[1..], x);
    } else {
      assert s + [x] == [x];
    }
  }

  lemma IdsCons(m: Message, s: seq<Message>)
    ensures Ids([m] + s) == {m.id} + Ids(s)
    ensures DistinctIds([m] + s) <==> m.id !in Ids(s) && DistinctIds(s)
  {
    assert ([m] + s)[1..] == s;
  }

  lemma {:induction false} FilterSplit(s: seq<Message>, now: int)
    ensures |DeletableMessages(s, now)| + |Undeletable(s, now)| == |s|
    decreases |s|
  {
    if |s| > 0 {
      FilterSplit(s[1..], now);
    }
  }

  /** The filter and its complement split the messages between them: kept
      and dropped together are the messages given, each exactly once. */
  lemma {:induction false} FilterPartition(s: seq<Message>, now: int)
    ensures multiset(DeletableMessages(s, now)) + multiset(Undeletable(s, now)) == multiset(s)
    decreases |s|
  {
    if |s| > 0 {
      FilterPartition(s[1..], now);
      assert s == [s[0]] + s[1..];
    }
  }

  /** A message is kept exactly when it is in the channel and recent, and
      dropped exactly when it is in the channel and old. */
  lemma FilterMembership(s: seq<Message>, now: int, m: Message)
    ensures m in DeletableMessages(s, now) <==> m in s && Deletable(m, now)
    ensures m in Undeletable(s, now) <==> m in s && !Deletable(m, now)
  {
    FilterPartition(s, now);
    assert m in s <==> m in multiset(s);
    if m in DeletableMessages(s, now) {
      var i :| 0 <= i < |DeletableMessages(s, now)| && DeletableMessages(s, now)[i] == m;
      FilterKeeps(s, now, i);
      assert m in multiset(DeletableMessages(s, now));
    }
    if m in Undeletable(s, now) {
      var i :| 0 <= i < |Undeletable(s, now)| && Undeletable(s, now)[i] == m;
      FilterDrops(s, now, i);
      assert m in multiset(Undeletable(s, now));
    }
  }

  /** A message whose id was not submitted survives the bulk delete. */
  lemma {:induction false} WithoutKeeps(s: seq<Message>, ids: set<nat>, m: Message)
    requires m in s && m.id !in ids
    ensures m in Without(s, ids)
    decreases |s|
  {
    if s[0] != m {
      assert m in s[1..];
      WithoutKeeps(s[1..], ids, m);
    }
  }

  lemma {:induction false} IdsDeletable(s: seq<Message>, now: int)
    ensures Ids(DeletableMessages(s, now)) <= Ids(s)
    decreases |s|
  {
    if |s| > 0 {
      IdsDeletable(s[1..], now);
      IdsCons(s[0], DeletableMessages(s[1..], now));
    }
  }

  lemma {:induction false} IdsConcat(a: seq<Message>, b: seq<Message>)
    ensures Ids(a + b) == Ids(a) + Ids(b)
    decreases |a|
  {
    if |a| > 0 {
      assert a + b == [a[0]] + (a[1..] + b);
      IdsCons(a[0], a[1..] + b);
      IdsConcat(a[1..], b);
    } else {
      assert a + b == b;
    }
  }

  lemma {:induction false} DistinctConcat(a: seq<Message>, b: seq<Message>)
    requires DistinctIds(a + b)
    ensures DistinctIds(a) && DistinctIds(b) && Ids(a) !! Ids(b)
    decreases |a|
  {
    if |a| > 0 {
      assert a + b == [a[0]] + (a[1..] + b);
      IdsCons(a[0], a[1..] + b);
      IdsConcat(a[1..], b);
      DistinctConcat(a[1..], b);
    } else {
      assert a + b == b;
    }
  }

  lemma {:induction false} WithoutConcat(a: seq<Message>, b: seq<Message>, ids: set<nat>)
    ensures Without(a + b, ids) == Without(a, ids) + Without(b, ids)
    decreases |a|
  {
    if |a| > 0 {
      assert (a + b)[1..] == a[1..] + b;
      WithoutConcat(a[1..], b, ids);
    } else {
      assert a + b == b;
    }
  }

  /** Deleting ids none of which is in the channel changes nothing. */
  lemma {:induction false} WithoutNone(s: seq<Message>, ids: set<nat>)
    requires Ids(s) !! ids
    ensures Without(s, ids) == s
    decreases |s|
  {
    if |s| > 0 {
      WithoutNone(s[1..], ids);
    }
  }

  /** Only the ids present in the channel matter to a bulk delete. */
  lemma {:induction false} WithoutRelevant(s: seq<Message>, ids1: set<nat>, ids2: set<nat>)
    requires ids1 * Ids(s) == ids2 * Ids(s)
    ensures Without(s, ids1) == Without(s, ids2)
    decreases |s|
  {
    if |s| > 0 {
      assert s[0].id in Ids(s);
      assert s[0].id in ids1 * Ids(s) <==> s[0].id in ids2 * Ids(s);
      assert ids1 * Ids(s[1..]) == (ids1 * Ids(s)) * Ids(s[1..]);
      assert ids2 * Ids(s[1..]) == (ids2 * Ids(s)) * Ids(s[1..]);
      WithoutRelevant(s[1..], ids1, ids2);
    }
  }

  /** In a channel with unique ids, deleting the ids of its deletable
      messages leaves exactly the undeletable ones. */
  lemma {:induction false} WithoutDeletable(s: seq<Message>, now: int)
    requires DistinctIds(s)
    ensures Without(s, Ids(DeletableMessages(s, now))) == Undeletable(s, now)
    decreases |s|
  {
    if |s| > 0 {
      var t := s[1..];
      var ids := Ids(DeletableMessages(s, now));
      var idsT := Ids(DeletableMessages(t, now));
      IdsDeletable(t, now);
      if Deletable(s[0], now) {
        IdsCons(s[0], DeletableMessages(t, now));
      }
      assert ids == (if Deletable(s[0], now) then {s[0].id} else {}) + idsT;
      assert ids * Ids(t) == idsT * Ids(t);
      WithoutRelevant(t, ids, idsT);
      WithoutDeletable(t, now);
    }
  }

  /** One round on a channel with unique ids: the fetched deletable messages
      go, everything else stays in order. */
  lemma RoundEffect(msgs: seq<Message>, now: int)
    requires DistinctIds(msgs)
    ensures var p := Fetch(msgs);
      Without(msgs, Ids(DeletableMessages(p, now))) == Undeletable(p, now) + msgs[|p|..]
  {
    var p := Fetch(msgs);
    var q := msgs[|p|..];
    var ids := Ids(DeletableMessages(p, now));
    assert msgs == p + q;
    DistinctConcat(p, q);
    IdsDeletable(p, now);
    WithoutConcat(p, q, ids);
    WithoutNone(q, ids);
    WithoutDeletable(p, now);
  }

  lemma {:induction false} UndeletableConcat(a: seq<Message>, b: seq<Message>, now: int)
    ensures Undeletable(a + b, now) == Undeletable(a, now) + Undeletable(b, now)
    decreases |a|
  {
    if |a| > 0 {
      assert (a + b)[1..] == a[1..] + b;
      UndeletableConcat(a[1..], b, now);
    } else {
      assert a + b == b;
    }
  }

  lemma {:induction false} UndeletableIdempotent(s: seq<Message>, now: int)
    ensures Undeletable(Undeletable(s, now), now) == Undeletable(s, now)
    decreases |s|
  {
    if |s| > 0 {
      UndeletableIdempotent(s[1..], now);
      if !Deletable(s[0], now) {
        assert ([s[0]] + Undeletable(s[1..], now))[1..] == Undeletable(s[1..], now);
      }
    }
  }

  lemma {:induction false} DistinctWithout(s: seq<Message>, ids: set<nat>)
    requires DistinctIds(s)
    ensures DistinctIds(Without(s, ids)) && Ids(Without(s, ids)) <= Ids(s)
    decreases |s|
  {
    if |s| > 0 {
      DistinctWithout(s[1..], ids);
      IdsCons(s[0], Without(s[1..], ids));
    }
  }

  /** What one round leaves behind: unique ids still, the same undeletable
      messages, and a batch of between 1 and `FetchLimit` messages. */
  lemma RoundFacts(msgs: seq<Message>, now: int)
    requires DistinctIds(msgs)
    requires |DeletableMessages(Fetch(msgs), now)| > 0
    ensures var rest := Without(msgs, Ids(DeletableMessages(Fetch(msgs), now)));
      && DistinctIds(rest)
      && Undeletable(rest, now) == Undeletable(msgs, now)
      && |msgs| - |rest| == |DeletableMessages(Fetch(msgs), now)|
      && 1 <= |msgs| - |rest| <= FetchLimit
  {
    RoundSize(msgs, now);
    RoundKeepsOld(msgs, now);
  }

  /** A round keeps the ids unique and deletes what the fetch found
      deletable: between 1 and `FetchLimit` messages. */
  lemma RoundSize(msgs: seq<Message>, now: int)
    requires DistinctIds(msgs)
    requires |DeletableMessages(Fetch(msgs), now)| > 0
    ensures var rest := Without(msgs, Ids(DeletableMessages(Fetch(msgs), now)));
      && DistinctIds(rest)
      && |msgs| - |rest| == |DeletableMessages(Fetch(msgs), now)|
      && 1 <= |msgs| - |rest| <= FetchLimit
  {
    var p := Fetch(msgs);
    RoundEffect(msgs, now);
    DistinctWithout(msgs, Ids(DeletableMessages(p, now)));
    FilterSplit(p, now);
  }

  /** A round leaves the undeletable messages as they were. */
  lemma RoundKeepsOld(msgs: seq<Message>, now: int)
    requires DistinctIds(msgs)
    ensures Undeletable(Without(msgs, Ids(DeletableMessages(Fetch(msgs), now))), now) == Undeletable(msgs, now)
  {
    var p := Fetch(msgs);
    var q := msgs[|p|..];
    RoundEffect(msgs, now);
    assert msgs == p + q;
    UndeletableConcat(Undeletable(p, now), q, now);
    UndeletableIdempotent(p, now);
    UndeletableConcat(p, q, now);
  }

  // ---------------------------------------------------------------------------
  // Properties of the cleanup loop

  /** Every message of the channel is either deleted (and counted in some
      batch) or still there: the total is the number of messages removed. */
  lemma {:induction false} CleanAccounting(msgs: seq<Message>, now: int, limit: Option<int>, total: nat)
    ensures Sum(Clean(msgs, now, limit, total).batches) + |Clean(msgs, now, limit, total).remaining| == |msgs|
    decreases |msgs|
  {
    var deletable := DeletableMessages(Fetch(msgs), now);
    if |deletable| > 0 {
      var rest := Without(msgs, Ids(deletable));
      var n := |msgs| - |rest|;
      if !(limit.Some? && total + n >= limit.value) && n != 0 {
        CleanAccounting(rest, now, limit, total + n);
      }
    }
  }

  /** With unique ids no message two weeks old or older is ever deleted. */
  lemma {:induction false} CleanKeepsOldMessages(msgs: seq<Message>, now: int, limit: Option<int>, total: nat)
    requires DistinctIds(msgs)
    ensures Undeletable(Clean(msgs, now, limit, total).remaining, now) == Undeletable(msgs, now)
    decreases |msgs|
  {
    var deletable := DeletableMessages(Fetch(msgs), now);
    if |deletable| > 0 {
      RoundFacts(msgs, now);
      var rest := Without(msgs, Ids(deletable));
      var n := |msgs| - |rest|;
      if !(limit.Some? && total + n >= limit.value) {
        CleanKeepsOldMessages(rest, now, limit, total + n);
      }
    }
  }

  /** With unique ids every bulk delete removes between 1 and 100 messages. */
  lemma CleanBatchSizes(msgs: seq<Message>, now: int, limit: Option<int>, total: nat)
    requires DistinctIds(msgs)
    ensures var run := Clean(msgs, now, limit, total);
      forall i :: 0 <= i < |run.batches| ==> 1 <= run.batches[i] <= FetchLimit
  {
    forall i | 0 <= i < |Clean(msgs, now, limit, total).batches|
      ensures 1 <= Clean(msgs, now, limit, total).batches[i] <= FetchLimit
    {
      CleanBatchSize(msgs, now, limit, total, i);
    }
  }

  /** The `i`-th bulk delete of the run removes between 1 and 100 messages. */
  lemma {:induction false} CleanBatchSize(msgs: seq<Message>, now: int, limit: Option<int>, total: nat, i: nat)
    requires DistinctIds(msgs)
    requires i < |Clean(msgs, now, limit, total).batches|
    ensures 1 <= Clean(msgs, now, limit, total).batches[i] <= FetchLimit
    decreases |msgs|
  {
    RoundSize(msgs, now);
    var rest := Without(msgs, Ids(DeletableMessages(Fetch(msgs), now)));
    var n := |msgs| - |rest|;
    CleanRound(msgs, now, limit, total);
    if i > 0 {
      CleanBatchSize(rest, now, limit, total + n, i - 1);
    }
  }

  /** Without a count limit, and with unique ids, the loop ends only when
      the newest 100 messages hold nothing deletable. */
  lemma {:induction false} CleanRunsDry(msgs: seq<Message>, now: int, total: nat)
    requires DistinctIds(msgs)
    ensures DeletableMessages(Fetch(Clean(msgs, now, None, total).remaining), now) == []
    decreases |msgs|
  {
    var deletable := DeletableMessages(Fetch(msgs), now);
    if |deletable| > 0 {
      RoundFacts(msgs, now);
      var rest := Without(msgs, Ids(deletable));
      CleanRunsDry(rest, now, total + |msgs| - |rest|);
    }
  }

  /** With a limit `amount` above the total so far (unique ids): the loop
      either reaches `amount` or runs dry, and overshoots `amount` by less
      than one batch. */
  lemma {:induction false} CleanOvershoot(msgs: seq<Message>, now: int, amount: int, total: nat)
    requires DistinctIds(msgs)
    requires total < amount
    ensures var run := Clean(msgs, now, Some(amount), total);
      && total + Sum(run.batches) < amount + FetchLimit
      && (total + Sum(run.batches) >= amount || DeletableMessages(Fetch(run.remaining), now) == [])
    decreases |msgs|
  {
    var deletable := DeletableMessages(Fetch(msgs), now);
    if |deletable| > 0 {
      RoundFacts(msgs, now);
      var rest := Without(msgs, Ids(deletable));
      var n := |msgs| - |rest|;
      if total + n < amount {
        CleanOvershoot(rest, now, amount, total + n);
      }
    }
  }

  /** Every round but the last ended below the limit: the loop stops at the
      first round whose running total reaches it. */
  lemma {:induction false} CleanStopsAtFirstReach(msgs: seq<Message>, now: int, amount: int, total: nat)
    ensures var b := Clean(msgs, now, Some(amount), total).batches;
      forall j :: 1 <= j < |b| ==> total + Sum(b[..j]) < amount
    decreases |msgs|
  {
    var b := Clean(msgs, now, Some(amount), total).batches;
    var deletable := DeletableMessages(Fetch(msgs), now);
    if |deletable| > 0 {
      var rest := Without(msgs, Ids(deletable));
      var n := |msgs| - |rest|;
      CleanRound(msgs, now, Some(amount), total);
      if total + n < amount && n != 0 {
        CleanStopsAtFirstReach(rest, now, amount, total + n);
        PrefixSums(b, Clean(rest, now, Some(amount), total + n).batches, n, total, amount);
      }
    }
  }

  /** Running totals below `amount` stay below it after a first batch that
      also ends below it. */
  lemma PrefixSums(b: seq<nat>, b': seq<nat>, n: nat, total: nat, amount: int)
    requires b == [n] + b' && total + n < amount
    requires forall j :: 1 <= j < |b'| ==> total + n + Sum(b'[..j]) < amount
    ensures forall j :: 1 <= j < |b| ==> total + Sum(b[..j]) < amount
  {
    forall j | 1 <= j < |b|
      ensures total + Sum(b[..j]) < amount
    {
      assert b[..j] == [n] + b'[..j - 1];
      assert b[..j][1..] == b'[..j - 1];
      if j == 1 {
        assert b'[..0] == [];
      }
    }
  }

  // ---------------------------------------------------------------------------
  // Channels kept newest first

  lemma {:induction false} AllOldAfter(s: seq<Message>, now: int)
    requires NewestFirst(s) && |s| > 0 && !Deletable(s[0], now)
    ensures DeletableMessages(s, now) == [] && Undeletable(s, now) == s
    decreases |s|
  {
    if |s| > 1 {
      AllOldAfter(s[1..], now);
    }
  }

  /** In a channel kept newest first the deletable messages are a prefix. */
  lemma {:induction false} DeletablePrefix(s: seq<Message>, now: int)
    requires NewestFirst(s)
    ensures var e := |DeletableMessages(s, now)|;
      e <= |s| && DeletableMessages(s, now) == s[..e] && Undeletable(s, now) == s[e..]
    decreases |s|
  {
    if |s| > 0 {
      if Deletable(s[0], now) {
        DeletablePrefix(s[1..], now);
      } else {
        AllOldAfter(s, now);
      }
    }
  }

  lemma DeletableIndex(s: seq<Message>, now: int, i: nat)
    requires NewestFirst(s) && i < |s|
    ensures Deletable(s[i], now) <==> i < |DeletableMessages(s, now)|
  {
    DeletablePrefix(s, now);
    var e := |DeletableMessages(s, now)|;
    if i < e {
      FilterKeeps(s, now, i);
      assert s[i] == DeletableMessages(s, now)[i];
    } else {
      FilterDrops(s, now, i - e);
      assert s[i] == Undeletable(s, now)[i - e];
    }
  }

  /** No submitted id survives the bulk delete. */
  lemma {:induction false} WithoutRemoves(s: seq<Message>, ids: set<nat>, i: nat)
    requires i < |Without(s, ids)|
    ensures Without(s, ids)[i].id !in ids
    decreases |s|
  {
    if s[0].id in ids {
      WithoutRemoves(s[1..], ids, i);
    } else if i > 0 {
      WithoutRemoves(s[1..], ids, i - 1);
    }
  }

  /** Everything the filter keeps is deletable. */
  lemma {:induction false} FilterKeeps(s: seq<Message>, now: int, i: nat)
    requires i < |DeletableMessages(s, now)|
    ensures Deletable(DeletableMessages(s, now)[i], now)
    decreases |s|
  {
    if Deletable(s[0], now) {
      if i > 0 {
        FilterKeeps(s[1..], now, i - 1);
      }
    } else {
      FilterKeeps(s[1..], now, i);
    }
  }

  /** Everything the filter drops is two weeks old or older. */
  lemma {:induction false} FilterDrops(s: seq<Message>, now: int, i: nat)
    requires i < |Undeletable(s, now)|
    ensures !Deletable(Undeletable(s, now)[i], now)
    decreases |s|
  {
    if Deletable(s[0], now) {
      FilterDrops(s[1..], now, i);
    } else if i > 0 {
      FilterDrops(s[1..], now, i - 1);
    }
  }

  /** A newest-first channel whose `e` deletable messages are fetched `k`
      at a time: the fetch sees `min(k, e)` of them. */
  lemma DeletableInFront(s: seq<Message>, now: int, k: nat)
    requires NewestFirst(s) && k <= |s|
    ensures |DeletableMessages(s[..k], now)|
         == if k < |DeletableMessages(s, now)| then k else |DeletableMessages(s, now)|
  {
    var e := |DeletableMessages(s, now)|;
    var e' := |DeletableMessages(s[..k], now)|;
    assert NewestFirst(s[..k]);
    if e' > 0 {
      DeletableIndex(s[..k], now, e' - 1);
      DeletableIndex(s, now, e' - 1);
    }
    if e' < k {
      DeletableIndex(s[..k], now, e');
      DeletableIndex(s, now, e');
    }
    if e > 0 && e - 1 < k {
      DeletableIndex(s[..k], now, e - 1);
      DeletableIndex(s, now, e - 1);
    }
    if e < k {
      DeletableIndex(s[..k], now, e);
      DeletableIndex(s, now, e);
    }
  }

  /** The automatic cleanup of a newest-first channel with unique ids
      deletes every message younger than two weeks, in batches of 100 and a
      final smaller one, and keeps every older message. */
  lemma {:induction false} CleanNewestFirst(msgs: seq<Message>, now: int, total: nat)
    requires DistinctIds(msgs) && NewestFirst(msgs)
    ensures var run := Clean(msgs, now, None, total);
      && run.remaining == Undeletable(msgs, now)
      && run.batches == Chunks(|DeletableMessages(msgs, now)|)
    decreases |msgs|
  {
    var e1 := |DeletableMessages(Fetch(msgs), now)|;
    if e1 == 0 {
      SortedDry(msgs, now, total);
    } else {
      SortedRest(msgs, now);
      CleanNewestFirst(msgs[e1..], now, total + e1);
      NewestFirstStep(msgs, now, total);
    }
  }

  /** The inductive step: if the claim holds after the first round, it
      holds before it. */
  lemma NewestFirstStep(msgs: seq<Message>, now: int, total: nat)
    requires DistinctIds(msgs) && NewestFirst(msgs)
    requires |DeletableMessages(Fetch(msgs), now)| > 0
    requires var e1 := |DeletableMessages(Fetch(msgs), now)|;
      var next := Clean(msgs[e1..], now, None, total + e1);
      && e1 <= |msgs|
      && next.remaining == Undeletable(msgs[e1..], now)
      && next.batches == Chunks(|DeletableMessages(msgs[e1..], now)|)
    ensures var run := Clean(msgs, now, None, total);
      && run.remaining == Undeletable(msgs, now)
      && run.batches == Chunks(|DeletableMessages(msgs, now)|)
  {
    NewestFirstRemaining(msgs, now, total);
    NewestFirstBatches(msgs, now, total);
  }

  lemma NewestFirstRemaining(msgs: seq<Message>, now: int, total: nat)
    requires DistinctIds(msgs) && NewestFirst(msgs)
    requires |DeletableMessages(Fetch(msgs), now)| > 0
    requires var e1 := |DeletableMessages(Fetch(msgs), now)|;
      e1 <= |msgs| && Clean(msgs[e1..], now, None, total + e1).remaining == Undeletable(msgs[e1..], now)
    ensures Clean(msgs, now, None, total).remaining == Undeletable(msgs, now)
  {
    SortedRest(msgs, now);
    SortedRoundRest(msgs, now);
    SortedClean(msgs, now, total);
  }

  lemma NewestFirstBatches(msgs: seq<Message>, now: int, total: nat)
    requires NewestFirst(msgs) && DistinctIds(msgs)
    requires |DeletableMessages(Fetch(msgs), now)| > 0
    requires var e1 := |DeletableMessages(Fetch(msgs), now)|;
      e1 <= |msgs| && Clean(msgs[e1..], now, None, total + e1).batches == Chunks(|DeletableMessages(msgs[e1..], now)|)
    ensures Clean(msgs, now, None, total).batches == Chunks(|DeletableMessages(msgs, now)|)
  {
    var e1 := |DeletableMessages(Fetch(msgs), now)|;
    SortedRoundCount(msgs, now);
    SortedRoundRest(msgs, now);
    SortedClean(msgs, now, total);
    ChunksStep(Clean(msgs, now, None, total), Clean(msgs[e1..], now, None, total + e1),
               |DeletableMessages(msgs, now)|, e1, |DeletableMessages(msgs[e1..], now)|);
  }

  /** A first batch of `min(e, 100)` followed by the chunks of the rest is
      the chunks of `e`. */
  lemma ChunksStep(run: Run, next: Run, e: nat, e1: nat, rest: nat)
    requires 0 < e1 && e1 == (if e < FetchLimit then e else FetchLimit) && rest == e - e1
    requires run.batches == [e1] + next.batches && next.batches == Chunks(rest)
    ensures run.batches == Chunks(e)
  {
  }

  lemma SortedStep(msgs: seq<Message>, now: int, total: nat)
    requires DistinctIds(msgs) && NewestFirst(msgs)
    requires |DeletableMessages(Fetch(msgs), now)| > 0
    ensures var e1 := |DeletableMessages(Fetch(msgs), now)|;
      var e := |DeletableMessages(msgs, now)|;
      && e1 <= |msgs|
      && e1 == (if e < FetchLimit then e else FetchLimit)
      && DistinctIds(msgs[e1..]) && NewestFirst(msgs[e1..])
      && |DeletableMessages(msgs[e1..], now)| == e - e1
      && Undeletable(msgs[e1..], now) == Undeletable(msgs, now)
      && Clean(msgs, now, None, total).batches == [e1] + Clean(msgs[e1..], now, None, total + e1).batches
      && Clean(msgs, now, None, total).remaining == Clean(msgs[e1..], now, None, total + e1).remaining
  {
    SortedRound(msgs, now);
    SortedRest(msgs, now);
    SortedRoundRest(msgs, now);
    SortedClean(msgs, now, total);
  }

  lemma SortedRest(msgs: seq<Message>, now: int)
    requires DistinctIds(msgs) && NewestFirst(msgs)
    requires |DeletableMessages(Fetch(msgs), now)| > 0
    ensures var e1 := |DeletableMessages(Fetch(msgs), now)|;
      && e1 <= |msgs|
      && DistinctIds(msgs[e1..]) && NewestFirst(msgs[e1..])
      && Undeletable(msgs[e1..], now) == Undeletable(msgs, now)
  {
    SortedRound(msgs, now);
    RoundFacts(msgs, now);
  }

  lemma SortedClean(msgs: seq<Message>, now: int, total: nat)
    requires |DeletableMessages(Fetch(msgs), now)| > 0
    requires var e1 := |DeletableMessages(Fetch(msgs), now)|;
      e1 <= |msgs| && Without(msgs, Ids(DeletableMessages(Fetch(msgs), now))) == msgs[e1..]
    ensures var e1 := |DeletableMessages(Fetch(msgs), now)|;
      && Clean(msgs, now, None, total).batches == [e1] + Clean(msgs[e1..], now, None, total + e1).batches
      && Clean(msgs, now, None, total).remaining == Clean(msgs[e1..], now, None, total + e1).remaining
  {
    CleanRound(msgs, now, None, total);
  }

  lemma SortedDry(msgs: seq<Message>, now: int, total: nat)
    requires NewestFirst(msgs)
    requires |DeletableMessages(Fetch(msgs), now)| == 0
    ensures |DeletableMessages(msgs, now)| == 0
    ensures Clean(msgs, now, None, total) == Run([], Undeletable(msgs, now))
  {
    DeletableInFront(msgs, now, |Fetch(msgs)|);
    DeletablePrefix(msgs, now);
  }

  /** One round on a newest-first channel with unique ids removes its first
      `min(100, e)` messages, `e` being how many are deletable. */
  lemma SortedRound(msgs: seq<Message>, now: int)
    requires DistinctIds(msgs) && NewestFirst(msgs)
    requires |DeletableMessages(Fetch(msgs), now)| > 0
    ensures var e1 := |DeletableMessages(Fetch(msgs), now)|;
      var e := |DeletableMessages(msgs, now)|;
      && e1 <= |msgs|
      && Without(msgs, Ids(DeletableMessages(Fetch(msgs), now))) == msgs[e1..]
      && e1 == (if e < FetchLimit then e else FetchLimit)
      && |DeletableMessages(msgs[e1..], now)| == e - e1
  {
    SortedRoundRest(msgs, now);
    SortedRoundCount(msgs, now);
  }

  lemma SortedRoundRest(msgs: seq<Message>, now: int)
    requires DistinctIds(msgs) && NewestFirst(msgs)
    ensures var e1 := |DeletableMessages(Fetch(msgs), now)|;
      && e1 <= |msgs|
      && Without(msgs, Ids(DeletableMessages(Fetch(msgs), now))) == msgs[e1..]
  {
    var p := Fetch(msgs);
    var k := |p|;
    var e1 := |DeletableMessages(p, now)|;
    RoundEffect(msgs, now);
    assert NewestFirst(p);
    DeletablePrefix(p, now);
    assert msgs == p + msgs[k..];
    assert Undeletable(p, now) + msgs[k..] == msgs[e1..];
  }

  lemma SortedRoundCount(msgs: seq<Message>, now: int)
    requires NewestFirst(msgs)
    ensures var e1 := |DeletableMessages(Fetch(msgs), now)|;
      var e := |DeletableMessages(msgs, now)|;
      && e1 <= |msgs|
      && e1 == (if e < FetchLimit then e else FetchLimit)
      && |DeletableMessages(msgs[e1..], now)| == e - e1
  {
    var p := Fetch(msgs);
    var e1 := |DeletableMessages(p, now)|;
    DeletablePrefix(msgs, now);
    DeletableInFront(msgs, now, |p|);
    assert msgs == msgs[..e1] + msgs[e1..];
    DeletableConcat(msgs[..e1], msgs[e1..], now);
    forall i | 0 <= i < e1
      ensures Deletable(msgs[..e1][i], now)
    {
      DeletableIndex(msgs, now, i);
    }
    AllDeletable(msgs[..e1], now);
  }

  lemma {:induction false} DeletableConcat(a: seq<Message>, b: seq<Message>, now: int)
    ensures DeletableMessages(a + b, now) == DeletableMessages(a, now) + DeletableMessages(b, now)
    decreases |a|
  {
    if |a| > 0 {
      assert (a + b)[1..] == a[1..] + b;
      DeletableConcat(a[1..], b, now);
    } else {
      assert a + b == b;
    }
  }

  lemma {:induction false} AllDeletable(s: seq<Message>, now: int)
    requires forall i :: 0 <= i < |s| ==> Deletable(s[i], now)
    ensures DeletableMessages(s, now) == s
    decreases |s|
  {
    if |s| > 0 {
      AllDeletable(s[1..], now);
    }
  }

  /** The scenario of 250 recent messages: three rounds of 100, 100 and 50,
      250 deleted in all. */
  lemma TwoHundredFifty(msgs: seq<Message>, now: int)
    requires DistinctIds(msgs) && NewestFirst(msgs)
    requires |DeletableMessages(msgs, now)| == 250
    ensures Clean(msgs, now, None, 0).batches == [100, 100, 50]
    ensures Sum(Clean(msgs, now, None, 0).batches) == 250
  {
    CleanNewestFirst(msgs, now, 0);
    assert Chunks(50) == [50];
    assert Chunks(150) == [100, 50];
    assert Chunks(250) == [100, 100, 50];
    assert Sum([50]) == 50;
    assert Sum([100, 50]) == 150 by { assert [100, 50][1..] == [50]; }
    assert [100, 100, 50][1..] == [100, 50];
  }
}
