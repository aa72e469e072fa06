/**
 approve(), reject(), edit() and validate() as they are written, over an approval row updated in
 place and an entity object loaded from it. Each call is proved to be a run of ApprovalLifecycle.
*/
module ApprovalService {
  import opened Common
  import opened ApprovalLifecycle
  import H = HitlResume

  /** One request's own copy of the row. */
  class Approval {
    var status: ApprovalStatus
    var approvedBy: Option<UserId>
    var decision: Option<Decision>
    var reason: Option<string>
    var payload: Option<Payload>
    var decidedAt: Option<int>

    function AsRow(): Row
      reads this
    {
      Row(status, approvedBy, decision, reason, payload, decidedAt)
    }

    constructor (row: Row)
      ensures AsRow() == row
    {
      status, approvedBy, decision := row.status, row.approvedBy, row.decision;
      reason, payload, decidedAt := row.reason, row.payload, row.decidedAt;
    }
  }

  class ApprovalTable {
    const cfg: Config
    var row: Row
    var compliance: seq<ComplianceEntry>
    var now: int
    ghost var sessions: map<Session, Pc>

    ghost function Snapshot(): State
      reads this
    {
      State(row, compliance, sessions, now)
    }

    constructor (cfg: Config, now: int)
      ensures Initial(Snapshot()) && this.cfg == cfg && this.now == now
    {
      this.cfg, this.now, row, compliance, sessions := cfg, now, UNDECIDED, [], map[];
    }

    /** _expire(): unconditional, and it writes the status alone. */
    method ExpireRow(ghost s: Session, raises: bool) returns (outcome: Outcome)
      requires s in sessions && sessions[s].Expiring?
      modifies this
      ensures Snapshot() == Step(cfg, old(Snapshot()), if raises then Abort(s) else Expire(s))
      ensures sessions[s] == Done(outcome)
    {
      if !raises {
        row := row.(status := Lapsed);
      }
      outcome := if raises then ServerError else ExpiredError;
      sessions := sessions[s := Done(outcome)];
    }

    /**
     _get_waiting_entity(): ownership before expiry before status, so a stranger learns nothing.
     Returns null with the refusal when the approval is not actionable by this user.
    */
    method GetWaitingEntity(ghost s: Session, ghost request: Request, user: UserId, raises: bool)
        returns (entity: Approval?, outcome: Outcome, ghost es: seq<Event>)
      requires s !in sessions && request.user == user
      modifies this
      ensures Runs(cfg, old(Snapshot()), es, Snapshot()) && s in sessions
      ensures entity != null <==> user == cfg.requestedBy && old(now) < cfg.expiresAt && old(row).status == Waiting
      ensures entity == null ==>
              && sessions[s] == Done(outcome) && !outcome.Recorded? && compliance == old(compliance)
              && (row == old(row) || row == old(row).(status := Lapsed))
      ensures entity != null ==>
              && fresh(entity) && entity.AsRow() == row && row == old(row) && compliance == old(compliance)
              && now == old(now) && sessions[s] == Deciding(Decided(row, request, now))
      ensures user != cfg.requestedBy ==> row == old(row)
      ensures entity == null ==>
              outcome == (if user != cfg.requestedBy then Forbidden
                          else if old(now) >= cfg.expiresAt then if raises then ServerError else ExpiredError
                          else NotActionable)
    {
      ghost var before := Snapshot();
      entity, outcome, es := null, ServerError, [Load(s, request)];
      if user != cfg.requestedBy {
        outcome := Forbidden;
        sessions := sessions[s := Done(Forbidden)];
      } else if now >= cfg.expiresAt {
        sessions := sessions[s := Expiring];
        ghost var middle := Snapshot();
        outcome := ExpireRow(s, raises);
        es := [Load(s, request), if raises then Abort(s) else Expire(s)];
        assert Runs(cfg, middle, es[1..], Snapshot());
      } else if row.status != Waiting {
        outcome := NotActionable;
        sessions := sessions[s := Done(NotActionable)];
      } else {
        entity := new Approval(row);
        sessions := sessions[s := Deciding(Decided(row, request, now))];
      }
    }

    /** _save_decision(): the conditional write and its compliance row, both or neither. */
    method SaveDecision(ghost s: Session, entity: Approval, raises: bool) returns (outcome: Outcome)
      requires s in sessions && sessions[s] == Deciding(entity.AsRow())
      requires entity.decision.Some? && entity.approvedBy.Some?
      modifies this, entity
      ensures Snapshot() == Step(cfg, old(Snapshot()), if raises then Abort(s) else Save(s))
      ensures sessions[s] == Done(outcome)
      ensures !raises ==> entity.AsRow() == row
    {
      if raises {
        outcome := ServerError;
      } else if row.status == Waiting {
        row := entity.AsRow();
        compliance := compliance + [ComplianceEntry(entity.approvedBy.value, entity.decision.value)];
        outcome := Recorded(entity.decision.value);
      } else {
        entity.status, entity.approvedBy, entity.decision := row.status, row.approvedBy, row.decision;
        entity.reason, entity.payload, entity.decidedAt := row.reason, row.payload, row.decidedAt;
        outcome := NotActionable;
      }
      sessions := sessions[s := Done(outcome)];
    }

    /** The two transactions of one decision, with nobody in between. */
    ghost predicate Decides(before: State, request: Request, raises: bool, outcome: Outcome)
      reads this
    {
      && outcome == (
           if request.user != cfg.requestedBy then Forbidden
           else if before.now >= cfg.expiresAt then if raises then ServerError else ExpiredError
           else if before.row.status != Waiting then NotActionable
           else if raises then ServerError else Recorded(request.decision))
      && (outcome.Recorded? ==>
            && row == Decided(before.row, request, before.now)
            && compliance == before.compliance + [ComplianceEntry(request.user, request.decision)])
      && (!outcome.Recorded? ==>
            compliance == before.compliance && (row == before.row || row == before.row.(status := Lapsed)))
    }

    method Approve(s: Session, user: UserId, reason: Option<string>, raises: bool)
        returns (outcome: Outcome, ghost es: seq<Event>)
      requires s !in sessions
      modifies this
      ensures Runs(cfg, old(Snapshot()), es, Snapshot()) && s in sessions && sessions[s] == Done(outcome)
      ensures Decides(old(Snapshot()), Request(user, H.Approve, reason, None), raises, outcome)
      ensures outcome.Recorded? ==> row.status == Granted && row.decision == Some(H.Approve) && row.reason == reason
    {
      ghost var before, request := Snapshot(), Request(user, H.Approve, reason, None);
      var entity;
      entity, outcome, es := GetWaitingEntity(s, request, user, raises);
      if entity == null {
        return;
      }
      ghost var loaded := Snapshot();
      entity.status, entity.approvedBy, entity.decision := Granted, Some(user), Some(H.Approve);
      entity.reason, entity.decidedAt := reason, Some(now);
      outcome := SaveDecision(s, entity, raises);
      es := Then(cfg, before, es, loaded, if raises then Abort(s) else Save(s));
    }

    method Reject(s: Session, user: UserId, reason: Option<string>, raises: bool)
        returns (outcome: Outcome, ghost es: seq<Event>)
      requires s !in sessions
      modifies this
      ensures Runs(cfg, old(Snapshot()), es, Snapshot()) && s in sessions && sessions[s] == Done(outcome)
      ensures Decides(old(Snapshot()), Request(user, H.Reject, reason, None), raises, outcome)
      ensures outcome.Recorded? ==> row.status == Refused && row.decision == Some(H.Reject) && row.reason == reason
    {
      ghost var before, request := Snapshot(), Request(user, H.Reject, reason, None);
      var entity;
      entity, outcome, es := GetWaitingEntity(s, request, user, raises);
      if entity == null {
        return;
      }
      ghost var loaded := Snapshot();
      entity.status, entity.approvedBy, entity.decision := Refused, Some(user), Some(H.Reject);
      entity.reason, entity.decidedAt := reason, Some(now);
      outcome := SaveDecision(s, entity, raises);
      es := Then(cfg, before, es, loaded, if raises then Abort(s) else Save(s));
    }

    method Edit(s: Session, user: UserId, payload: Option<Payload>, reason: Option<string>, raises: bool)
        returns (outcome: Outcome, ghost es: seq<Event>)
      requires s !in sessions
      modifies this
      ensures Runs(cfg, old(Snapshot()), es, Snapshot()) && s in sessions && sessions[s] == Done(outcome)
      ensures Decides(old(Snapshot()), Request(user, H.Edit, reason, payload), raises, outcome)
      ensures outcome.Recorded? ==> row.status == Edited && row.decision == Some(H.Edit) && row.reason == reason
      ensures outcome.Recorded? ==> row.payload == payload
    {
      ghost var before, request := Snapshot(), Request(user, H.Edit, reason, payload);
      var entity;
      entity, outcome, es := GetWaitingEntity(s, request, user, raises);
      if entity == null {
        return;
      }
      ghost var loaded := Snapshot();
      entity.status, entity.approvedBy, entity.decision := Edited, Some(user), Some(H.Edit);
      entity.reason, entity.payload, entity.decidedAt := reason, payload, Some(now);
      outcome := SaveDecision(s, entity, raises);
      es := Then(cfg, before, es, loaded, if raises then Abort(s) else Save(s));
    }

    /** validate(): executable only while unexpired and approved. */
    method Validate(s: Session, user: Option<UserId>, raises: bool) returns (outcome: Outcome, ghost es: seq<Event>)
      requires s !in sessions
      modifies this
      ensures Runs(cfg, old(Snapshot()), es, Snapshot()) && s in sessions && sessions[s] == Done(outcome)
      ensures outcome ==
              if user.Some? && user.value != cfg.requestedBy then Forbidden
              else if old(now) >= cfg.expiresAt then if raises then ServerError else ExpiredError
              else if old(row).status == Granted then Valid else NotValid
      ensures compliance == old(compliance)
      ensures row == if outcome == ExpiredError then old(row).(status := Lapsed) else old(row)
    {
      ghost var before := Snapshot();
      es := [ApprovalLifecycle.Validate(s, user)];
      if user.Some? && user.value != cfg.requestedBy {
        outcome := Forbidden;
      } else if now >= cfg.expiresAt {
        sessions := sessions[s := Expiring];
        ghost var expiring := Snapshot();
        outcome := ExpireRow(s, raises);
        es := Then(cfg, before, es, expiring, if raises then Abort(s) else Expire(s));
        return;
      } else {
        outcome := if row.status == Granted then Valid else NotValid;
      }
      sessions := sessions[s := Done(outcome)];
    }
  }
}
