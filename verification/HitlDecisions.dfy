/** What each decision leads to, and how soon a claim may be taken over. */
module HitlDecisions {
  import opened Common
  import opened HitlResume

  // ---------------------------------------------------------------------
  // What each decision leads to
  // ---------------------------------------------------------------------

  /** A step of a call that nothing disturbs: nothing raises, permission stands and the tool answers. */
  predicate Smooth(e: Event) { e.Claim? || e.Read? || e.RunTool? || e.Store? || e.ResumeGraph? || e.Finish? }

  ghost predicate Undisturbed(w: Worker, es: seq<Event>) { forall e | e in es :: Smooth(e) && e.w == w }

  /** The call has done what its decision asks for up to this point. */
  ghost predicate OnTrack(cfg: Config, s0: State, s: State, w: Worker) {
    && w in s.pcs
    && match s.pcs[w]
       case Claiming(_, _, memory) =>
         memory == Unloaded && s.row == s0.row && (s.sends, s.answers) == (s0.sends, s0.answers)
       case Claimed(memory) =>
         memory == Unloaded && s.row.stored.None? && (s.sends, s.answers) == (s0.sends, s0.answers)
       case Fresh => cfg.decision != Reject && (s.sends, s.answers) == (s0.sends, s0.answers)
       case Ran(_, ran) => cfg.decision != Reject && (s.sends, s.answers) == (s0.sends + 1, s0.answers)
       case Ready(used) => Used(cfg, s0, s, used) && s.answers == s0.answers
       case Answered(used) => Used(cfg, s0, s, used) && s.answers == s0.answers
       case Ended(_) => Used(cfg, s0, s, s.row.stored) && Concluded(cfg, s) && s.answers == s0.answers + 1
       case _ => false
  }

  ghost predicate Used(cfg: Config, s0: State, s: State, used: Option<ToolResult>) {
    if cfg.decision == Reject then used.None? && s.sends == s0.sends else used.Some? && s.sends == s0.sends + 1
  }

  ghost predicate Concluded(cfg: Config, s: State) {
    s.row.status == match cfg.decision
                    case Approve => Completed
                    case Edit => Completed
                    case Reject => Rejected
  }

  lemma OnTrackStep(cfg: Config, s0: State, s: State, w: Worker, e: Event)
    requires cfg.hasPlan && cfg.hasOrigin && (s0.row.status == PendingApproval || s0.row.status == Failed)
    requires s0.row.stored.None? && OnTrack(cfg, s0, s, w) && Smooth(e) && e.w == w && Enabled(cfg, s, e)
    ensures OnTrack(cfg, s0, Step(cfg, s, e), w)
  {}

  lemma {:induction false} OnTrackRuns(cfg: Config, s0: State, s: State, w: Worker, es: seq<Event>, t: State)
    requires cfg.hasPlan && cfg.hasOrigin && (s0.row.status == PendingApproval || s0.row.status == Failed)
    requires s0.row.stored.None? && OnTrack(cfg, s0, s, w) && Undisturbed(w, es) && Runs(cfg, s, es, t)
    ensures OnTrack(cfg, s0, t, w)
    decreases |es|
  {
    if es == [] {
    } else {
      OnTrackStep(cfg, s0, s, w, es[0]);
      OnTrackRuns(cfg, s0, Step(cfg, s, es[0]), w, es[1..], t);
    }
  }

  /**
   A call on a waiting or failed action with nothing stored that nothing disturbs: an APPROVE and an EDIT send
   exactly once and end COMPLETED with the result stored, a REJECT sends nothing and ends REJECTED.
  */
  lemma UndisturbedCall(cfg: Config, s: State, w: Worker, es: seq<Event>, t: State)
    requires cfg.hasPlan && cfg.hasOrigin && (s.row.status == PendingApproval || s.row.status == Failed)
    requires s.row.stored.None? && w !in s.pcs && Runs(cfg, s, [Decide(w)] + es, t)
    requires Undisturbed(w, es) && w in t.pcs && t.pcs[w].Ended?
    ensures t.answers == s.answers + 1
    ensures cfg.decision == Approve || cfg.decision == Edit ==>
      t.sends == s.sends + 1 && t.row.status == Completed && t.row.stored.Some?
    ensures cfg.decision == Reject ==> t.sends == s.sends && t.row.status == Rejected && t.row.stored.None?
  {
    assert ([Decide(w)] + es)[1..] == es;
    OnTrackRuns(cfg, s, Step(cfg, s, Decide(w)), w, es, t);
  }

  /** There is such a call for each decision. */
  lemma EachDecisionRuns(cfg: Config, s: State) returns (es: seq<Event>, t: State)
    requires cfg.hasPlan && cfg.hasOrigin && Initial(s)
    ensures Runs(cfg, s, es, t) && t.answers == 1
    ensures cfg.decision == Approve || cfg.decision == Edit ==> t.sends == 1 && t.row.status == Completed
    ensures cfg.decision == Reject ==> t.sends == 0 && t.row.status == Rejected
  {
    es, t := Then(cfg, s, [], s, Decide(0));
    es, t := ClaimAndRead(cfg, s, es, t, 0);
    if cfg.decision != Reject {
      es, t := Then(cfg, s, es, t, RunTool(0, ToolResult(true, "sent")));
      es, t := Then(cfg, s, es, t, Store(0));
    }
    es, t := Then(cfg, s, es, t, ResumeGraph(0));
    es, t := Then(cfg, s, es, t, Finish(0));
  }

  /** In every run COMPLETED means APPROVE or EDIT, and REJECTED means REJECT. */
  lemma StatusTellsDecision(cfg: Config, s: State, es: seq<Event>, t: State)
    requires Initial(s) && Runs(cfg, s, es, t)
    ensures t.row.status == Completed ==> cfg.decision == Approve || cfg.decision == Edit
    ensures t.row.status == Rejected ==> cfg.decision == Reject
  {
    StatusRuns(cfg, s, es, t);
  }

  lemma {:induction false} StatusRuns(cfg: Config, s: State, es: seq<Event>, t: State)
    requires Runs(cfg, s, es, t)
    requires s.row.status == Completed ==> cfg.decision != Reject
    requires s.row.status == Rejected ==> cfg.decision == Reject
    ensures t.row.status == Completed ==> cfg.decision != Reject
    ensures t.row.status == Rejected ==> cfg.decision == Reject
    decreases |es|
  {
    if es == [] {
    } else {
      StatusRuns(cfg, Step(cfg, s, es[0]), es[1..], t);
    }
  }

  // ---------------------------------------------------------------------
  // How soon a claim may be taken over
  // ---------------------------------------------------------------------

  lemma {:induction false} TakeoverTakesTime(cfg: Config, s: State, es: seq<Event>, t: State)
    requires s.row.updatedAt <= s.now && Runs(cfg, s, es, t)
    ensures s.now <= t.now && s.takeovers <= t.takeovers
    ensures t.takeovers > s.takeovers ==> t.now > s.row.updatedAt + cfg.staleSeconds
    decreases |es|
  {
    if es == [] {
    } else {
      TakeoverTakesTime(cfg, Step(cfg, s, es[0]), es[1..], t);
    }
  }

  /** After a claim is won or a result stored, nobody takes the action over for staleSeconds. */
  lemma NoEarlyTakeover(cfg: Config, s: State, e: Event, es: seq<Event>, t: State)
    requires Enabled(cfg, s, e) && Runs(cfg, Step(cfg, s, e), es, t)
    requires e.Store? || (e.Claim? && Step(cfg, s, e).pcs[e.w].Claimed?)
    ensures t.takeovers > Step(cfg, s, e).takeovers ==> t.now > s.now + cfg.staleSeconds
  {
    TakeoverTakesTime(cfg, Step(cfg, s, e), es, t);
  }

  /** From then on a plain retry does take it over, once a result is stored or the decision was a REJECT. */
  lemma StaleIsTakenOver(cfg: Config, s: State, w: Worker)
    requires s.row.status == Executing && s.now > s.row.updatedAt + cfg.staleSeconds && w !in s.pcs
    requires s.row.stored.Some? || cfg.decision == Reject
    ensures var r := Step(cfg, s, Retry(w, false));
      Enabled(cfg, r, Claim(w)) && Step(cfg, r, Claim(w)).takeovers == s.takeovers + 1
  {}
}
