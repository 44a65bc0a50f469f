/** Nested provisioning contexts in one transaction, `libs/db/src/rls-context.ts`. */
module ProvisioningTenant {
  import opened Common

  /** A write that went through: the tenant setting it ran under, and the tenant its own body was for. */
  datatype Write = Write(underTenant: string, intendedTenant: string)

  /** The transaction-local settings. An unset setting is `None`; `aborted` refuses every further statement. */
  datatype Txn = Txn(tenant: Option<string>, platform: Option<string>, aborted: bool, log: seq<Write>)

  function Coalesce(setting: Option<string>): string {
    if setting.Some? then setting.value else ""
  }

  /** What a `work` callback does, statement by statement. */
  datatype Work =
    | Done
    | Then(first: Action, rest: Work)

  datatype Action =
    | WriteRow
    | FailingStatement
    | Throw
    | Visit(target: string, work: Work)
    | Caught(work: Work)

  /** The transaction after some code ran, and whether it threw. */
  datatype Exit = Exit(txn: Txn, threw: bool)

  /** Runs a body meant for tenant `mine`. */
  function RunWork(t: Txn, work: Work, mine: string): Exit
    decreases work, 0
  {
    match work
    case Done => Exit(t, false)
    case Then(first, rest) =>
      var e := RunAction(t, first, mine);
      if e.threw then e else RunWork(e.txn, rest, mine)
  }

  function RunAction(t: Txn, action: Action, mine: string): Exit
    decreases action, 0
  {
    match action
    case WriteRow =>
      if t.aborted then Exit(t, true) else Exit(t.(log := t.log + [Write(Coalesce(t.tenant), mine)]), false)
    case FailingStatement => Exit(t.(aborted := true), true)
    case Throw => Exit(t, true)
    case Visit(target, work) => WithTenant(t, target, work)
    case Caught(work) => RunWork(t, work, mine).(threw := false)
  }

  /** `withProvisioningTenant`: refused without a platform context; restored on both paths. */
  function WithTenant(t: Txn, target: string, work: Work): Exit
    decreases work, 1
  {
    if t.aborted || t.platform != Some("true") then Exit(t, true)
    else
      var e := RunWork(t.(tenant := Some(target)), work, target);
      if e.txn.aborted then Exit(e.txn, true)
      else Exit(e.txn.(tenant := Some(Coalesce(t.tenant))), e.threw)
  }

  class Transaction {
    var tenant: Option<string>
    var platform: Option<string>
    var aborted: bool
    var log: seq<Write>

    ghost function Now(): Txn
      reads this
    {
      Txn(tenant, platform, aborted, log)
    }

    /** `set_config(app.current_client_id, …, true)`; a refused statement throws. */
    method SetTenant(value: string) returns (threw: bool)
      modifies this`tenant
      ensures threw == aborted
      ensures tenant == if aborted then old(tenant) else Some(value)
    {
      if aborted {
        return true;
      }
      tenant := Some(value);
      threw := false;
    }

    method WithProvisioningTenant(target: string, work: Work) returns (threw: bool)
      modifies this
      ensures Exit(Now(), threw) == WithTenant(old(Now()), target, work)
      decreases work, 2
    {
      if aborted {
        return true;
      }
      var platformAdmin := platform == Some("true");
      var previous := Coalesce(tenant);
      if !platformAdmin {
        return true;
      }
      var _ := SetTenant(target);
      threw := DoWork(work, target);
      if threw {
        var _ := SetTenant(previous);
        return true;
      }
      threw := SetTenant(previous);
    }

    method DoWork(work: Work, mine: string) returns (threw: bool)
      modifies this
      ensures Exit(Now(), threw) == RunWork(old(Now()), work, mine)
      decreases work, 1
    {
      if work.Done? {
        return false;
      }
      threw := DoAction(work.first, mine);
      if !threw {
        threw := DoWork(work.rest, mine);
      }
    }

    method DoAction(action: Action, mine: string) returns (threw: bool)
      modifies this
      ensures Exit(Now(), threw) == RunAction(old(Now()), action, mine)
      decreases action, 1
    {
      match action
      case WriteRow =>
        if aborted {
          return true;
        }
        log := log + [Write(Coalesce(tenant), mine)];
        threw := false;
      case FailingStatement =>
        aborted := true;
        threw := true;
      case Throw =>
        threw := true;
      case Visit(target, inner) =>
        threw := WithProvisioningTenant(target, inner);
      case Caught(inner) =>
        var _ := DoWork(inner, mine);
        threw := false;
    }
  }

  // ---- main results ---------------------------------------------------------------------------

  /** From `t` to `u`: rows were only added, each under its own body's tenant, and the platform flag is as it was. */
  predicate Sound(t: Txn, u: Txn) {
    && u.platform == t.platform
    && (t.aborted ==> u.aborted)
    && |t.log| <= |u.log| && u.log[..|t.log|] == t.log
    && (forall k :: |t.log| <= k < |u.log| ==> u.log[k].underTenant == u.log[k].intendedTenant)
  }

  lemma SoundTransitive(t: Txn, u: Txn, w: Txn)
    requires Sound(t, u) && Sound(u, w)
    ensures Sound(t, w)
  {
    assert w.log[..|t.log|] == w.log[..|u.log|][..|t.log|];
    forall k | |t.log| <= k < |w.log| ensures w.log[k].underTenant == w.log[k].intendedTenant {
      if k < |u.log| {
        assert w.log[k] == w.log[..|u.log|][k];
      }
    }
  }

  /** A body that starts under its own tenant ends under it, unless the transaction is aborted. */
  lemma {:induction false} WorkKeepsTenant(t: Txn, work: Work, mine: string)
    requires Coalesce(t.tenant) == mine || t.aborted
    ensures var u := RunWork(t, work, mine).txn; Sound(t, u) && (u.aborted || Coalesce(u.tenant) == mine)
    decreases work, 0
  {
    if work.Then? {
      ActionKeepsTenant(t, work.first, mine);
      var e := RunAction(t, work.first, mine);
      if !e.threw {
        WorkKeepsTenant(e.txn, work.rest, mine);
        SoundTransitive(t, e.txn, RunWork(e.txn, work.rest, mine).txn);
      }
    }
  }

  lemma {:induction false} ActionKeepsTenant(t: Txn, action: Action, mine: string)
    requires Coalesce(t.tenant) == mine || t.aborted
    ensures var u := RunAction(t, action, mine).txn; Sound(t, u) && (u.aborted || Coalesce(u.tenant) == mine)
    decreases action, 0
  {
    match action
    case Visit(target, work) => VisitRestores(t, target, work);
    case Caught(work) => WorkKeepsTenant(t, work, mine);
    case _ =>
  }

  lemma {:induction false} VisitRestores(t: Txn, target: string, work: Work)
    ensures var u := WithTenant(t, target, work).txn;
            Sound(t, u) && (u.aborted || Coalesce(u.tenant) == Coalesce(t.tenant))
    decreases work, 1
  {
    if !t.aborted && t.platform == Some("true") {
      WorkKeepsTenant(t.(tenant := Some(target)), work, target);
    }
  }

  /**
   * For any tree of nested visits whose bodies write, throw, catch or abort: on exit the tenant reads as it did
   * on entry or the transaction is aborted, the platform flag never moved, every row was written under the
   * tenant of the body that wrote it, an aborted exit throws, and without a platform context nothing changes.
   */
  lemma NestedVisits(t: Txn, target: string, work: Work)
    ensures var e := WithTenant(t, target, work);
            && (e.txn.aborted || Coalesce(e.txn.tenant) == Coalesce(t.tenant))
            && e.txn.platform == t.platform
            && |t.log| <= |e.txn.log| && e.txn.log[..|t.log|] == t.log
            && (forall k :: |t.log| <= k < |e.txn.log| ==> e.txn.log[k].underTenant == e.txn.log[k].intendedTenant)
            && (e.txn.aborted ==> e.threw)
            && (t.platform != Some("true") ==> e == Exit(t, true))
  {
    VisitRestores(t, target, work);
  }

  /** The setting itself, and not only its reading, is restored exactly when it was set on entry. */
  lemma SettingRestoredIff(t: Txn, target: string, work: Work)
    requires !WithTenant(t, target, work).txn.aborted && t.platform == Some("true")
    ensures WithTenant(t, target, work).txn.tenant == t.tenant <==> t.tenant.Some?
  {
    VisitRestores(t, target, work);
  }

  // ---- lexical scoping ------------------------------------------------------------------------

  /** What a body writes, whether it leaves the transaction aborted, and whether it throws. */
  datatype Effect = Effect(rows: seq<Write>, aborted: bool, threw: bool)

  /**
   * The meaning of a tree of visits with no setting in it at all: a row belongs to the body it is written in. Only
   * whether the transaction is aborted is passed along, because every statement of an aborted one is refused.
   */
  function Lexical(work: Work, mine: string, aborted: bool): Effect
    decreases work
  {
    match work
    case Done => Effect([], aborted, false)
    case Then(first, rest) =>
      var before := LexicalAction(first, mine, aborted);
      if before.threw then before
      else
        var after := Lexical(rest, mine, before.aborted);
        Effect(before.rows + after.rows, after.aborted, after.threw)
  }

  function LexicalAction(action: Action, mine: string, aborted: bool): Effect
    decreases action
  {
    match action
    case WriteRow => if aborted then Effect([], true, true) else Effect([Write(mine, mine)], false, false)
    case FailingStatement => Effect([], true, true)
    case Throw => Effect([], aborted, true)
    case Visit(target, work) =>
      if aborted then Effect([], true, true)
      else
        var body := Lexical(work, target, false);
        Effect(body.rows, body.aborted, body.threw || body.aborted)
    case Caught(work) => Lexical(work, mine, aborted).(threw := false)
  }

  predicate Matches(before: Txn, e: Exit, effect: Effect) {
    e.txn.log == before.log + effect.rows && e.txn.aborted == effect.aborted && e.threw == effect.threw
  }

  lemma {:induction false} WorkIsLexical(t: Txn, work: Work, mine: string)
    requires t.platform == Some("true") && (t.aborted || Coalesce(t.tenant) == mine)
    ensures Matches(t, RunWork(t, work, mine), Lexical(work, mine, t.aborted))
    decreases work, 0
  {
    match work
    case Done => assert t.log + [] == t.log;
    case Then(first, rest) =>
      ActionIsLexical(t, first, mine);
      ActionKeepsTenant(t, first, mine);
      var e := RunAction(t, first, mine);
      if !e.threw {
        WorkIsLexical(e.txn, rest, mine);
        var before, after := LexicalAction(first, mine, t.aborted), Lexical(rest, mine, e.txn.aborted);
        assert t.log + before.rows + after.rows == t.log + (before.rows + after.rows);
      }
  }

  lemma {:induction false} ActionIsLexical(t: Txn, action: Action, mine: string)
    requires t.platform == Some("true") && (t.aborted || Coalesce(t.tenant) == mine)
    ensures Matches(t, RunAction(t, action, mine), LexicalAction(action, mine, t.aborted))
    decreases action, 0
  {
    assert t.log + [] == t.log;
    match action
    case Visit(target, work) =>
      if !t.aborted {
        WorkIsLexical(t.(tenant := Some(target)), work, target);
      }
    case Caught(work) => WorkIsLexical(t, work, mine);
    case _ =>
  }

  /**
   * Setting and restoring one variable implements lexical scoping. For any tree whatever, a visit from a platform
   * context writes exactly the rows of its body, in order, each under the tenant of the body it is written in; it
   * aborts exactly when the body does; and it throws exactly when the body throws uncaught or aborts.
   */
  lemma VisitsAreLexical(t: Txn, target: string, work: Work)
    requires t.platform == Some("true") && !t.aborted
    ensures var e, body := WithTenant(t, target, work), Lexical(work, target, false);
            && e.txn.log == t.log + body.rows
            && (e.txn.aborted <==> body.aborted)
            && (e.threw <==> body.threw || body.aborted)
  {
    WorkIsLexical(t.(tenant := Some(target)), work, target);
  }

  /** No statement of the tree fails and nothing is thrown. */
  predicate Clean(work: Work) {
    match work
    case Done => true
    case Then(first, rest) => CleanAction(first) && Clean(rest)
  }

  predicate CleanAction(action: Action) {
    match action
    case WriteRow => true
    case Visit(_, work) => Clean(work)
    case Caught(work) => Clean(work)
    case _ => false
  }

  /** The rows of a tree, each for its own body's tenant, in order. */
  function Rows(work: Work, mine: string): seq<Write> {
    match work
    case Done => []
    case Then(first, rest) => RowsOfAction(first, mine) + Rows(rest, mine)
  }

  function RowsOfAction(action: Action, mine: string): seq<Write> {
    match action
    case WriteRow => [Write(mine, mine)]
    case Visit(target, work) => Rows(work, target)
    case Caught(work) => Rows(work, mine)
    case _ => []
  }

  lemma {:induction false} CleanRows(work: Work, mine: string)
    requires Clean(work)
    ensures Lexical(work, mine, false) == Effect(Rows(work, mine), false, false)
    decreases work
  {
    if work.Then? {
      CleanRowsOfAction(work.first, mine);
      CleanRows(work.rest, mine);
    }
  }

  lemma {:induction false} CleanRowsOfAction(action: Action, mine: string)
    requires CleanAction(action)
    ensures LexicalAction(action, mine, false) == Effect(RowsOfAction(action, mine), false, false)
    decreases action
  {
    match action
    case Visit(target, work) => CleanRows(work, target);
    case Caught(work) => CleanRows(work, mine);
    case _ =>
  }

  /** A tree in which nothing fails writes all its rows and returns. */
  lemma CleanVisitWritesAll(t: Txn, target: string, work: Work)
    requires t.platform == Some("true") && !t.aborted && Clean(work)
    ensures WithTenant(t, target, work).txn.log == t.log + Rows(work, target)
    ensures !WithTenant(t, target, work).threw && !WithTenant(t, target, work).txn.aborted
  {
    VisitsAreLexical(t, target, work);
    CleanRows(work, target);
  }
}
