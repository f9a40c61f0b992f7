/** Token accounting: every metered reply is counted in exactly one place, and rounding
    costs a user less than one unit per ledger row and one more. */
module QuotaConservation {
  import opened Options
  import L = LearningState
  import opened TokenWeights
  import opened Learning
  import opened LearningHistory
  import opened ChatRows

  // ----- the three places -----

  function MeteredOf(ms: seq<Metered>, user: string): seq<Usage> {
    if ms == [] then [] else (if ms[0].user == user then [ms[0].usage] else []) + MeteredOf(ms[1..], user)
  }

  function UsageBy(m: Message, enrollments: map<string, Enrollment>, user: string): seq<Usage> {
    if m.request.enrollment in enrollments && enrollments[m.request.enrollment].user == user && m.usage.Some?
    then [m.usage.value] else []
  }

  /** `sumUsage({ enrollment: { userId } })`, before the sum. */
  function SavedOf(ms: seq<Message>, enrollments: map<string, Enrollment>, user: string): seq<Usage> {
    if ms == [] then [] else UsageBy(ms[0], enrollments, user) + SavedOf(ms[1..], enrollments, user)
  }

  function ChargedOf(cs: seq<Charge>, user: string): seq<Usage> {
    if cs == [] then [] else (if cs[0].user == user then cs[0].replies else []) + ChargedOf(cs[1..], user)
  }

  /** The replies of a user are its chat rows, its ledger rows and what was free, each once. */
  ghost predicate Conserved(db: Db, user: string) {
    multiset(MeteredOf(db.metered, user))
    == multiset(SavedOf(db.messages, db.enrollments, user))
       + multiset(ChargedOf(db.charges, user)) + multiset(ChargedOf(db.waived, user))
  }

  ghost predicate AllConserved(db: Db) {
    forall user: string :: Conserved(db, user)
  }

  /** Ledger rows hold the rounded cost of their replies; what is free rounds to nothing. */
  ghost predicate Priced(db: Db, w: Weights) {
    && (forall i | 0 <= i < |db.charges| ::
          db.charges[i].amount == Consumed(db.charges[i].replies, w) && db.charges[i].amount > 0)
    && (forall i | 0 <= i < |db.waived| :: Consumed(db.waived[i].replies, w) <= 0)
  }

  ghost predicate QuotaOk(db: Db, w: Weights) {
    ChatOk(db) && AllConserved(db) && Priced(db, w)
  }

  // ----- appending -----

  lemma {:induction false} MeteredAppend(ms: seq<Metered>, m: Metered, user: string)
    ensures MeteredOf(ms + [m], user) == MeteredOf(ms, user) + if m.user == user then [m.usage] else []
    decreases |ms|
  {
    var all := ms + [m];
    if ms == [] {
      assert all[1..] == [];
    } else {
      assert all[1..] == ms[1..] + [m] && all[0] == ms[0];
      MeteredAppend(ms[1..], m, user);
      var first := if ms[0].user == user then [ms[0].usage] else [];
      var last := if m.user == user then [m.usage] else [];
      assert first + (MeteredOf(ms[1..], user) + last) == first + MeteredOf(ms[1..], user) + last;
    }
  }

  lemma {:induction false} SavedAppend(ms: seq<Message>, m: Message, enrollments: map<string, Enrollment>, user: string)
    ensures SavedOf(ms + [m], enrollments, user) == SavedOf(ms, enrollments, user) + UsageBy(m, enrollments, user)
    decreases |ms|
  {
    hide UsageBy;
    if ms == [] {
      assert ms + [m] == [m] && [m][1..] == [];
    } else {
      assert (ms + [m])[1..] == ms[1..] + [m];
      SavedAppend(ms[1..], m, enrollments, user);
    }
  }

  lemma {:induction false} ChargedAppend(cs: seq<Charge>, c: Charge, user: string)
    ensures ChargedOf(cs + [c], user) == ChargedOf(cs, user) + if c.user == user then c.replies else []
    decreases |cs|
  {
    if cs == [] {
      assert cs + [c] == [c] && [c][1..] == [];
    } else {
      assert (cs + [c])[1..] == cs[1..] + [c];
      ChargedAppend(cs[1..], c, user);
    }
  }

  /** Saved usage depends on who owns the enrollments, not on their progress. */
  lemma {:induction false} SameSaved(ms: seq<Message>, a: map<string, Enrollment>, b: map<string, Enrollment>, user: string)
    requires forall i | 0 <= i < |ms| :: ms[i].request.enrollment in a
    requires forall e <- a :: e in b && b[e].user == a[e].user
    ensures SavedOf(ms, a, user) == SavedOf(ms, b, user)
    decreases |ms|
  {
    if ms != [] {
      assert forall i | 0 <= i < |ms[1..]| :: ms[1..][i] == ms[i + 1];
      SameSaved(ms[1..], a, b, user);
    }
  }

  /** Removing the rows of an enrollment takes exactly their usage from its owner. */
  lemma {:induction false} SavedWithout(ms: seq<Message>, enrollments: map<string, Enrollment>, e: string, user: string)
    requires e in enrollments
    ensures multiset(SavedOf(ms, enrollments, user))
         == multiset(SavedOf(WithoutEnrollment(ms, e), enrollments, user))
            + multiset(if enrollments[e].user == user then UsagesOf(ms, e) else [])
    decreases |ms|
  {
    if ms != [] {
      SavedWithout(ms[1..], enrollments, e, user);
      var mine := UsageBy(ms[0], enrollments, user);
      WithoutFirst(ms, e);
      if ms[0].request.enrollment == e {
        assert multiset(SavedOf(ms, enrollments, user)) == multiset(mine) + multiset(SavedOf(ms[1..], enrollments, user));
        assert enrollments[e].user == user ==> UsagesOf(ms, e) == mine + UsagesOf(ms[1..], e);
      } else {
        SavedFirst(ms[0], WithoutEnrollment(ms[1..], e), enrollments, user);
        assert multiset(SavedOf(ms, enrollments, user)) == multiset(mine) + multiset(SavedOf(ms[1..], enrollments, user));
      }
    }
  }

  lemma WithoutFirst(ms: seq<Message>, e: string)
    requires ms != []
    ensures var rest := WithoutEnrollment(ms[1..], e);
            if ms[0].request.enrollment == e then WithoutEnrollment(ms, e) == rest
            else WithoutEnrollment(ms, e) == [ms[0]] + rest && UsagesOf(ms, e) == UsagesOf(ms[1..], e)
  {
    var rest, usages := WithoutEnrollment(ms[1..], e), UsagesOf(ms[1..], e);
    if ms[0].request.enrollment == e {
      assert [] + rest == rest;
    } else {
      assert [] + usages == usages;
    }
  }

  lemma SavedFirst(m: Message, rest: seq<Message>, enrollments: map<string, Enrollment>, user: string)
    ensures multiset(SavedOf([m] + rest, enrollments, user))
         == multiset(UsageBy(m, enrollments, user)) + multiset(SavedOf(rest, enrollments, user))
  {
    assert ([m] + rest)[1..] == rest;
  }

  // ----- steps -----

  lemma OwnersKeep(db: Db, db': Db, w: Weights)
    requires QuotaOk(db, w) && SameChat(db, db') && SameOwners(db, db')
    ensures QuotaOk(db', w)
  {
    hide SavedOf, ChargedOf, MeteredOf, Consumed;
    SameChatKeeps(db, db');
    forall user: string ensures Conserved(db', user) {
      assert Conserved(db, user);
      SavedHere(db);
      SameSaved(db.messages, db.enrollments, db'.enrollments, user);
    }
  }

  lemma SavedHere(db: Db)
    requires ChatOk(db)
    ensures forall i | 0 <= i < |db.messages| :: db.messages[i].request.enrollment in db.enrollments
  {
    forall i | 0 <= i < |db.messages| ensures db.messages[i].request.enrollment in db.enrollments {
      assert BelongsNow(db, db.messages[i].request);
    }
  }

  /** A row without usage costs nothing. */
  lemma UnmeteredKeeps(db: Db, db': Db, m: Message, w: Weights)
    requires AllConserved(db) && Priced(db, w) && m.usage.None?
    requires db'.messages == db.messages || db'.messages == db.messages + [m]
    requires db'.enrollments == db.enrollments && db'.metered == db.metered
    requires db'.charges == db.charges && db'.waived == db.waived
    ensures AllConserved(db') && Priced(db', w)
  {
    hide SavedOf, ChargedOf, MeteredOf, Consumed;
    forall user: string ensures Conserved(db', user) {
      assert Conserved(db, user);
      SavedAppend(db.messages, m, db.enrollments, user);
      assert SavedOf(db.messages, db.enrollments, user) + [] == SavedOf(db.messages, db.enrollments, user);
    }
  }

  lemma SavedKeeps(db: Db, r: Request, usage: Usage, db': Db, w: Weights)
    requires AllConserved(db) && Priced(db, w) && r.enrollment in db.enrollments
    requires db'.messages == db.messages + [Message(r, Assistant, Some(usage))]
    requires db'.metered == db.metered + [Metered(r, db.enrollments[r.enrollment].user, usage)]
    requires db'.enrollments == db.enrollments && db'.charges == db.charges && db'.waived == db.waived
    ensures AllConserved(db') && Priced(db', w)
  {
    hide SavedOf, ChargedOf, MeteredOf, Consumed;
    forall user: string ensures Conserved(db', user) {
      assert Conserved(db, user);
      SavedAppend(db.messages, Message(r, Assistant, Some(usage)), db.enrollments, user);
      MeteredAppend(db.metered, Metered(r, db.enrollments[r.enrollment].user, usage), user);
    }
  }

  /** A charge or a waiver of exactly the replies that are new. */
  lemma ChargeConserves(db: Db, db': Db, m: Metered, charge: Charge)
    requires AllConserved(db) && db'.messages == db.messages && db'.enrollments == db.enrollments
    requires db'.metered == db.metered + [m] && charge.user == m.user && charge.replies == [m.usage]
    requires (db'.charges == db.charges + [charge] && db'.waived == db.waived)
          || (db'.charges == db.charges && db'.waived == db.waived + [charge])
    ensures AllConserved(db')
  {
    hide SavedOf, ChargedOf, MeteredOf;
    forall user: string ensures Conserved(db', user) {
      assert Conserved(db, user);
      ChargedAppend(db.charges, charge, user);
      ChargedAppend(db.waived, charge, user);
      MeteredAppend(db.metered, m, user);
    }
  }

  lemma ChargeIsPriced(db: Db, charge: Charge, db': Db, w: Weights)
    requires Priced(db, w) && charge.amount == Consumed(charge.replies, w)
    requires if charge.amount > 0 then db'.charges == db.charges + [charge] && db'.waived == db.waived
             else db'.charges == db.charges && db'.waived == db.waived + [charge]
    ensures Priced(db', w)
  {
    hide Consumed;
  }

  /** A late reply is charged, or free, in the step that counts it. */
  lemma LateKeeps(db: Db, r: Request, usage: Usage, db': Db, w: Weights)
    requires AllConserved(db) && Priced(db, w) && r.enrollment in db.enrollments && !HasCharge(db.charges, Stale(r))
    requires db'.metered == db.metered + [Metered(r, db.enrollments[r.enrollment].user, usage)]
    requires db'.messages == db.messages && db'.enrollments == db.enrollments
    requires db'.charges == ChargeStale(db, r, usage, w).charges && db'.waived == ChargeStale(db, r, usage, w).waived
    ensures AllConserved(db') && Priced(db', w)
  {
    hide AllConserved, Priced, Consumed, HasCharge;
    var user := db.enrollments[r.enrollment].user;
    var charge := Charge(Stale(r), user, Consumed([usage], w), [usage]);
    ChargeConserves(db, db', Metered(r, user, usage), charge);
    ChargeIsPriced(db, charge, db', w);
  }

  lemma ReplyKeepsQuota(db: Db, r: Request, usage: Option<Usage>, w: Weights)
    requires QuotaOk(db, w)
    ensures QuotaOk(ReplyTx(db, r, usage).0, w)
  {
    hide AllConserved, Priced, HasMessage, HasCharge, Consumed, ReplyTx, ChatOk;
    ReplyKeepsChat(db, r, usage);
    var db' := ReplyTx(db, r, usage).0;
    if Awaits(db, r) && r.enrollment in db.enrollments {
      WaitingNow(db, r);
      ReplyCases(db, r, usage);
      if usage.Some? && Current(db, r.enrollment, r.generation) {
        SavedKeeps(db, r, usage.value, db', w);
      } else {
        UnmeteredKeeps(db, db', Message(r, Assistant, None), w);
      }
    } else {
      NotPending(db, r, usage);
    }
  }

  lemma ChargeKeepsQuota(db: Db, r: Request, w: Weights)
    requires QuotaOk(db, w)
    ensures QuotaOk(ChargeTx(db, r, w), w)
  {
    hide AllConserved, Priced, HasMessage, HasCharge, Consumed, ChargeStale, ChargeTx, ChatOk;
    ChargeKeepsChat(db, r, w);
    if Refused(db, r) {
      WaitingNow(db, r);
      ChargeTxShape(db, r, w);
      LateKeeps(db, r, db.pending[r].value, ChargeTx(db, r, w), w);
    } else {
      NotRefused(db, r, w);
    }
  }

  lemma WaitingNow(db: Db, r: Request)
    requires ChatOk(db) && r in db.pending
    ensures !HasMessage(db.messages, r, Assistant) && !HasCharge(db.charges, Stale(r))
  {
    assert Waiting(db, r);
  }

  lemma ReplyCases(db: Db, r: Request, usage: Option<Usage>)
    requires Awaits(db, r) && r.enrollment in db.enrollments && !HasMessage(db.messages, r, Assistant)
    ensures var db' := ReplyTx(db, r, usage).0; var saved := Current(db, r.enrollment, r.generation);
            && db'.enrollments == db.enrollments && db'.charges == db.charges && db'.waived == db.waived
            && db'.messages == (if saved then db.messages + [Message(r, Assistant, usage)] else db.messages)
            && db'.metered == (if saved && usage.Some? then
                                 db.metered + [Metered(r, db.enrollments[r.enrollment].user, usage.value)]
                               else db.metered)
  {
    hide HasMessage, Current;
  }

  lemma OthersKeepQuota(db: Db, a: Action, w: Weights)
    requires QuotaOk(db, w) && (a.DoPrepare? || a.DoFallback? || a.DoDie?)
    ensures QuotaOk(Step(db, a, w), w)
  {
    hide AllConserved, Priced, ChatOk, Step;
    StepKeepsChat(db, a, w);
    var m := UnmeteredShape(db, a, w);
    UnmeteredKeeps(db, Step(db, a, w), m, w);
  }

  lemma UnmeteredShape(db: Db, a: Action, w: Weights) returns (m: Message)
    requires a.DoPrepare? || a.DoFallback? || a.DoDie?
    ensures var db' := Step(db, a, w);
            && m.usage.None? && (db'.messages == db.messages || db'.messages == db.messages + [m])
            && db'.enrollments == db.enrollments && db'.metered == db.metered
            && db'.charges == db.charges && db'.waived == db.waived
  {
    hide HasMessage, Current, OnlyLesson, Latest;
    m := Message(a.request, if a.DoPrepare? then User else Assistant, None);
  }

  // ----- restart -----

  /** What a settlement does to the tables of the ledger. */
  lemma RestartSettles(db: Db, e: string, c: Command, w: Weights)
    requires RestartTx(db, e, c, w).0 != db
    ensures e in db.enrollments
    ensures var db' := RestartTx(db, e, c, w).0; var en := db.enrollments[e];
            var charge := Charge(Settlement(e, en.generation), en.user, Consumed(UsagesOf(db.messages, e), w), UsagesOf(db.messages, e));
            && db'.charges == (if charge.amount > 0 then db.charges + [charge] else db.charges)
            && db'.waived == (if charge.amount > 0 then db.waived else db.waived + [charge])
  {
    hide RestartTx, Consumed, UsagesOf, WithoutEnrollment, Latest;
    RestartWrites(db, e, c, w);
  }

  lemma RestartKeepsQuota(db: Db, e: string, c: Command, w: Weights)
    requires QuotaOk(db, w)
    ensures QuotaOk(RestartTx(db, e, c, w).0, w)
  {
    hide RestartTx, Consumed, UsagesOf, WithoutEnrollment, ChatOk, SavedOf, ChargedOf, MeteredOf, SettledCharges;
    RestartKeepsChat(db, e, c, w);
    var db' := RestartTx(db, e, c, w).0;
    if db' != db {
      RestartShape(db, e, c, w);
      RestartSettles(db, e, c, w);
      var en := db.enrollments[e];
      var usages := UsagesOf(db.messages, e);
      var charge := Charge(Settlement(e, en.generation), en.user, Consumed(usages, w), usages);
      SavedHere(db);
      forall user: string ensures Conserved(db', user) {
        assert Conserved(db, user);
        SavedWithout(db.messages, db.enrollments, e, user);
        ChargedAppend(db.charges, charge, user);
        ChargedAppend(db.waived, charge, user);
        StillHere(db, e);
        SameSaved(db'.messages, db.enrollments, db'.enrollments, user);
      }
    }
  }

  lemma StillHere(db: Db, e: string)
    requires ChatOk(db)
    ensures forall i | 0 <= i < |WithoutEnrollment(db.messages, e)| ::
              WithoutEnrollment(db.messages, e)[i].request.enrollment in db.enrollments
  {
    hide WithoutEnrollment;
    WithoutFacts(db.messages, e);
    var ms := WithoutEnrollment(db.messages, e);
    forall i | 0 <= i < |ms| ensures ms[i].request.enrollment in db.enrollments {
      assert HasMessage(ms, ms[i].request, ms[i].role);
      assert HasMessage(db.messages, ms[i].request, ms[i].role);
      var k :| 0 <= k < |db.messages| && db.messages[k].request == ms[i].request && db.messages[k].role == ms[i].role;
      assert BelongsNow(db, db.messages[k].request);
    }
  }

  lemma StepKeepsQuota(db: Db, a: Action, w: Weights)
    requires QuotaOk(db, w)
    ensures QuotaOk(Step(db, a, w), w)
  {
    hide QuotaOk;
    if a.DoRestart? {
      hide RestartTx;
      RestartKeepsQuota(db, a.e, a.command, w);
    } else if a.DoReply? {
      hide ReplyTx;
      ReplyKeepsQuota(db, a.request, a.usage, w);
    } else if a.DoCharge? {
      hide ChargeTx;
      ChargeKeepsQuota(db, a.request, w);
    } else if ChatAction(a) {
      hide Step;
      OthersKeepQuota(db, a, w);
    } else {
      hide Step;
      LearningKeepsChat(db, a, w);
      OwnersKeep(db, Step(db, a, w), w);
    }
  }

  lemma {:induction false} RunKeepsQuota(db: Db, run: seq<Action>, w: Weights)
    requires QuotaOk(db, w)
    ensures QuotaOk(Run(db, run, w), w)
    decreases |run|
  {
    hide Step, QuotaOk;
    if run != [] {
      StepKeepsQuota(db, run[0], w);
      RunKeepsQuota(Step(db, run[0], w), run[1..], w);
    }
  }

  lemma Start(w: Weights)
    ensures QuotaOk(INITIAL, w)
  {
  }

  // ----- the bound -----

  function TotalCharged(cs: seq<Charge>, user: string): int {
    if cs == [] then 0 else (if cs[0].user == user then cs[0].amount else 0) + TotalCharged(cs[1..], user)
  }

  function Rows(cs: seq<Charge>, user: string): nat {
    if cs == [] then 0 else (if cs[0].user == user then 1 else 0) + Rows(cs[1..], user)
  }

  /** What the quota check counts against a user: rounded chat usage and ledger rows. */
  function Charged(db: Db, user: string, w: Weights): int {
    Consumed(SavedOf(db.messages, db.enrollments, user), w) + TotalCharged(db.charges, user)
  }

  lemma {:induction false} LedgerBounds(cs: seq<Charge>, user: string, w: Weights)
    requires forall i | 0 <= i < |cs| :: cs[i].amount == Consumed(cs[i].replies, w)
    ensures var cost := Cost(ChargedOf(cs, user), w);
            && cost <= TotalCharged(cs, user) as real
            && TotalCharged(cs, user) as real <= cost + Rows(cs, user) as real
    decreases |cs|
  {
    hide Consumed, Cost;
    if cs == [] {
      CostOfNone(w);
    } else {
      assert forall i | 0 <= i < |cs[1..]| :: cs[1..][i] == cs[i + 1];
      LedgerBounds(cs[1..], user, w);
      if cs[0].user == user {
        CostConcat(cs[0].replies, ChargedOf(cs[1..], user), w);
        ConsumedBounds(cs[0].replies, w);
      } else {
        assert [] + ChargedOf(cs[1..], user) == ChargedOf(cs[1..], user);
      }
    }
  }

  lemma CostOfNone(w: Weights)
    ensures Cost([], w) == 0.0
  {
  }

  lemma ConsumedBounds(us: seq<Usage>, w: Weights)
    ensures Cost(us, w) <= Consumed(us, w) as real < Cost(us, w) + 1.0
  {
    WeightOfSum(us, w);
    CeilBounds(Cost(us, w));
  }

  lemma {:induction false} WaivedCostsNothing(cs: seq<Charge>, user: string, w: Weights)
    requires NonNegative(w) && forall i | 0 <= i < |cs| :: Consumed(cs[i].replies, w) <= 0
    ensures Cost(ChargedOf(cs, user), w) == 0.0
    decreases |cs|
  {
    hide Consumed, Cost;
    CostOfNone(w);
    if cs != [] {
      assert forall i | 0 <= i < |cs[1..]| :: cs[1..][i] == cs[i + 1];
      WaivedCostsNothing(cs[1..], user, w);
      if cs[0].user == user {
        CostConcat(cs[0].replies, ChargedOf(cs[1..], user), w);
        ConsumedBounds(cs[0].replies, w);
        CostIsNonNegative(cs[0].replies, w);
      } else {
        assert [] + ChargedOf(cs[1..], user) == ChargedOf(cs[1..], user);
      }
    }
  }

  /** The cost of all metered replies is the cost of what is saved and what is charged. */
  lemma CostIsConserved(db: Db, user: string, w: Weights)
    requires QuotaOk(db, w) && NonNegative(w)
    ensures Cost(MeteredOf(db.metered, user), w)
         == Cost(SavedOf(db.messages, db.enrollments, user), w) + Cost(ChargedOf(db.charges, user), w)
  {
    hide MeteredOf, SavedOf, ChargedOf, Cost, ChatOk, Consumed;
    var saved, charged, free :=
      SavedOf(db.messages, db.enrollments, user), ChargedOf(db.charges, user), ChargedOf(db.waived, user);
    assert Conserved(db, user);
    CostOfSame(MeteredOf(db.metered, user), saved + charged + free, w);
    CostConcat(saved + charged, free, w);
    CostConcat(saved, charged, w);
    WaivedCostsNothing(db.waived, user, w);
  }

  /** The main result: with W the exact weighted total of all metered replies of a user (each
      column of tokens times its weight) and k the number of its ledger rows,
      W <= charged < W + k + 1 in every reachable state. */
  lemma ChargesStayClose(run: seq<Action>, w: Weights, user: string)
    requires NonNegative(w)
    ensures var db := Run(INITIAL, run, w);
            var replies := MeteredOf(db.metered, user);
            var total := Hits(replies) as real * w.hit + Misses(replies) as real * w.miss + Outputs(replies) as real * w.output;
            var charged := Charged(db, user, w) as real;
            total <= charged < total + Rows(db.charges, user) as real + 1.0
  {
    hide Run, MeteredOf, SavedOf, ChargedOf, Cost, Consumed, ChatOk, TotalCharged, Rows;
    Start(w);
    RunKeepsQuota(INITIAL, run, w);
    var db := Run(INITIAL, run, w);
    CostIsConserved(db, user, w);
    CostIsByColumn(MeteredOf(db.metered, user), w);
    LedgerBounds(db.charges, user, w);
    ConsumedBounds(SavedOf(db.messages, db.enrollments, user), w);
  }

  /** Each metered reply is counted once: as a chat row, in a settlement, or in the row of a
      late reply (or nowhere, when it is free); and no request is metered twice. */
  lemma RepliesAreCountedOnce(run: seq<Action>, w: Weights, user: string)
    ensures var db := Run(INITIAL, run, w);
            && Conserved(db, user) && Priced(db, w)
            && forall i, j | 0 <= i < j < |db.metered| :: db.metered[i].request != db.metered[j].request
  {
    hide Run, Conserved, Priced;
    Start(w);
    RunKeepsQuota(INITIAL, run, w);
  }

  // ----- one restart -----

  lemma {:induction false} TotalAppend(cs: seq<Charge>, c: Charge, user: string)
    ensures TotalCharged(cs + [c], user) == TotalCharged(cs, user) + if c.user == user then c.amount else 0
    decreases |cs|
  {
    if cs == [] {
      assert cs + [c] == [c] && [c][1..] == [];
    } else {
      assert (cs + [c])[1..] == cs[1..] + [c];
      TotalAppend(cs[1..], c, user);
    }
  }

  /** Settling rounds two parts instead of one. */
  lemma SplitCosts(all: seq<Usage>, kept: seq<Usage>, settled: seq<Usage>, w: Weights)
    requires NonNegative(w) && multiset(all) == multiset(kept) + multiset(settled)
    ensures var due := if Consumed(settled, w) > 0 then Consumed(settled, w) else 0;
            0 <= Consumed(kept, w) + due - Consumed(all, w) <= 1
  {
    CostOfSame(all, kept + settled, w);
    CostConcat(kept, settled, w);
    WeightOfSum(all, w);
    WeightOfSum(kept, w);
    WeightOfSum(settled, w);
    CostIsNonNegative(settled, w);
    CeilBounds(Cost(settled, w));
    CeilOfSum(Cost(kept, w), Cost(settled, w));
  }

  /** A restart lowers the balance of its user by exactly nothing or exactly one unit, and
      nobody else's. */
  lemma RestartCostsAtMostOne(run: seq<Action>, w: Weights, e: string, c: Command, user: string)
    requires NonNegative(w)
    ensures var db := Run(INITIAL, run, w); var db' := RestartTx(db, e, c, w).0;
            var more := Charged(db', user, w) - Charged(db, user, w);
            && 0 <= more <= 1
            && (e in db.enrollments && db.enrollments[e].user != user ==> more == 0)
            && (RestartTx(db, e, c, w).1 != Done ==> more == 0)
  {
    hide Run, RestartTx, SavedOf, Consumed, UsagesOf, WithoutEnrollment, ChatOk, TotalCharged, SettledCharges;
    Start(w);
    RunKeepsQuota(INITIAL, run, w);
    var db := Run(INITIAL, run, w);
    var db' := RestartTx(db, e, c, w).0;
    NotDoneIsSame(db, e, c, w);
    if db' != db {
      RestartShape(db, e, c, w);
      RestartSettles(db, e, c, w);
      var en := db.enrollments[e];
      var usages := UsagesOf(db.messages, e);
      TotalAppend(db.charges, Charge(Settlement(e, en.generation), en.user, Consumed(usages, w), usages), user);
      StillHere(db, e);
      SameSaved(db'.messages, db.enrollments, db'.enrollments, user);
      SavedWithout(db.messages, db.enrollments, e, user);
      var all, kept := SavedOf(db.messages, db.enrollments, user), SavedOf(db'.messages, db.enrollments, user);
      if en.user == user {
        SplitCosts(all, kept, usages, w);
      } else {
        SameCost(all, kept, w);
      }
    }
  }

  lemma SameCost(a: seq<Usage>, b: seq<Usage>, w: Weights)
    requires multiset(a) == multiset(b) + multiset([])
    ensures Consumed(a, w) == Consumed(b, w)
  {
    assert multiset(a) == multiset(b);
    CostOfSame(a, b, w);
    WeightOfSum(a, w);
    WeightOfSum(b, w);
  }

  lemma NotDoneIsSame(db: Db, e: string, c: Command, w: Weights)
    ensures RestartTx(db, e, c, w).1 != Done ==> RestartTx(db, e, c, w).0 == db
  {
    hide UpToDate, SameCommand, Settle, NextGeneration;
  }
}
