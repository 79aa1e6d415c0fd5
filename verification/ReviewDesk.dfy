/** The request handlers, which update the rows of the database in place. */
module ReviewDesk {
  import opened Options
  import opened Review
  import opened ReviewRuns

  /** A request has been handled: it took effect, or failed and changed nothing. */
  ghost predicate Handled(before: Site, a: Action, failure: Option<Failure>, after: Site)
  {
    match failure
    case None => Handle(before, a) == Ok(after)
    case Some(f) => Handle(before, a) == Err(f) && after == before
  }

  class Desk {
    var corporations: seq<Corporation>
    var revisions: seq<Revision>
    var claims: seq<Claim>
    var requests: seq<DraftRequest>

    constructor ()
      ensures Value() == EMPTY
    {
      corporations, revisions, claims, requests := [], [], [], [];
    }

    function Value(): Site
      reads this
    {
      Site(corporations, revisions, claims, requests)
    }

    /** `Claims.post`. */
    method PostClaim(user: User, requestId: RequestId, target: Target, text: int, allowed: bool)
        returns (failure: Option<Failure>)
      modifies this
      ensures Handled(old(Value()), Action.PostClaim(user, requestId, target, text, allowed), failure, Value())
    {
      failure := None;
      var previous := FindClaim(claims, user, requestId);
      if previous < |claims| {
        if claims[previous].target != target || claims[previous].text != text {
          return Some(Conflict);
        }
        return;
      }
      if !allowed {
        return Some(Throttled);
      }
      var c: nat;
      var key: int;
      match target {
        case Existing(pk) =>
          if pk >= |corporations| {
            return Some(NotFound);
          }
          c, key := pk, corporations[pk].key;
        case Named(name) =>
          c, key := FindKey(corporations, name), name;
      }
      if c < |corporations| && corporations[c].owner.Some? {
        return Some(Conflict);
      }
      if exists i :: && 0 <= i < |claims| && claims[i].corporation == c
                     && claims[i].applicant == user && claims[i].status == ClaimPending {
        return Some(Conflict);
      }
      if c == |corporations| {
        corporations := corporations + [Corporation(key, None, None, None, true)];
      }
      claims := claims + [Claim(c, user, requestId, target, text, key, ClaimPending)];
    }

    /** `Draft.post`. */
    method PostDraft(user: User, pk: nat, requestId: RequestId, allowed: bool) returns (failure: Option<Failure>)
      modifies this
      ensures Handled(old(Value()), Action.PostDraft(user, pk, requestId, allowed), failure, Value())
    {
      failure := None;
      if pk >= |corporations| || corporations[pk].owner != Some(user) {
        return Some(NotFound);
      }
      var previous := FindRequest(requests, user, requestId);
      if previous < |requests| {
        if requests[previous].corporation != pk {
          return Some(Conflict);
        }
        return;
      }
      if !allowed {
        return Some(Throttled);
      }
      var current := Lookup(Value(), corporations[pk].working);
      if current.Some? && current.value.status == Pending {
        return Some(Conflict);
      }
      var draft: nat;
      if current.Some? && current.value.status == Draft {
        draft := corporations[pk].working.value;
      } else {
        var source := if current.Some? then current else Lookup(Value(), corporations[pk].published);
        draft := |revisions|;
        var content := if source.Some? then source.value.content else DEFAULT_CONTENT;
        revisions := revisions + [Revision(pk, user, 1, Draft, content)];
        corporations := corporations[pk := corporations[pk].(working := Some(draft))];
      }
      requests := requests + [DraftRequest(user, requestId, pk, draft)];
    }

    /** `locked_revision` and `check_version`. */
    method CheckVersion(user: User, pk: nat, expected: nat, status: Status) returns (failure: Option<Failure>)
      ensures failure == Checked(Value(), user, pk, expected, status)
    {
      if pk >= |revisions| || !Owns(Value(), user, revisions[pk].corporation) {
        return Some(NotFound);
      }
      if corporations[revisions[pk].corporation].working != Some(pk) {
        return Some(Conflict);
      }
      if revisions[pk].version != expected || revisions[pk].status != status {
        return Some(Conflict);
      }
      failure := None;
    }

    /** `RevisionEdit.patch`. */
    method Edit(user: User, pk: nat, expected: nat, edited: Option<Content>) returns (failure: Option<Failure>)
      modifies this
      ensures Handled(old(Value()), Action.Edit(user, pk, expected, edited), failure, Value())
    {
      failure := CheckVersion(user, pk, expected, Draft);
      if failure.Some? {
        return;
      }
      if edited.None? {
        return Some(Invalid);
      }
      var revision := revisions[pk];
      revision := revision.(content := edited.value);
      revision := revision.(version := revision.version + 1);
      revisions := revisions[pk := revision];
    }

    /** `RevisionTransition.post`. */
    method Transition(user: User, pk: nat, submit: bool, expected: nat) returns (failure: Option<Failure>)
      modifies this
      ensures var a := if submit then Action.Submit(user, pk, expected) else Action.Withdraw(user, pk, expected);
              Handled(old(Value()), a, failure, Value())
    {
      failure := CheckVersion(user, pk, expected, if submit then Draft else Pending);
      if failure.Some? {
        return;
      }
      var revision := revisions[pk];
      if submit {
        if !Complete(revision.content) {
          return Some(Invalid);
        }
        revision := revision.(status := Pending);
      } else {
        revision := revision.(status := Withdrawn);
      }
      revision := revision.(version := revision.version + 1);
      revisions := revisions[pk := revision];
    }

    /** `Decision.post` for a claim. */
    method DecideClaim(pk: nat, approve: bool) returns (failure: Option<Failure>)
      modifies this
      ensures Handled(old(Value()), Action.DecideClaim(pk, approve), failure, Value())
    {
      failure := None;
      if pk >= |claims| || claims[pk].corporation >= |corporations| {
        return Some(NotFound);
      }
      var item := claims[pk];
      if item.status != ClaimPending {
        return Some(Conflict);
      }
      if approve {
        if corporations[item.corporation].owner.Some? || item.key != corporations[item.corporation].key {
          return Some(Conflict);
        }
        corporations := corporations[item.corporation :=
            corporations[item.corporation].(owner := Some(item.applicant))];
      }
      claims := claims[pk := item.(status := if approve then ClaimApproved else ClaimRejected)];
    }

    /** `Decision.post` for a revision. */
    method DecideRevision(pk: nat, approve: bool) returns (failure: Option<Failure>)
      modifies this
      ensures Handled(old(Value()), Action.DecideRevision(pk, approve), failure, Value())
    {
      failure := None;
      if pk >= |revisions| || revisions[pk].corporation >= |corporations| {
        return Some(NotFound);
      }
      var item := revisions[pk];
      if item.status != Pending || corporations[item.corporation].working != Some(pk) {
        return Some(Conflict);
      }
      if approve {
        corporations := corporations[item.corporation := corporations[item.corporation].(published := Some(pk))];
      }
      item := item.(version := item.version + 1);
      item := item.(status := if approve then Approved else Rejected);
      revisions := revisions[pk := item];
    }

    /** `Visibility.post`. */
    method SetListed(pk: nat, listed: bool) returns (failure: Option<Failure>)
      modifies this
      ensures Handled(old(Value()), Action.SetListed(pk, listed), failure, Value())
    {
      failure := None;
      if pk >= |corporations| {
        return Some(NotFound);
      }
      corporations := corporations[pk := corporations[pk].(listed := listed)];
    }
  }

  /** Requests that the desk handles one after the other are one of the runs that the claims are about. */
  lemma HandledRequestsAreARun(sites: seq<Site>, actions: seq<Action>, failures: seq<Option<Failure>>)
    requires |sites| == |actions| + 1 && |failures| == |actions| && sites[0] == EMPTY
    requires forall i :: 0 <= i < |actions| ==> Handled(sites[i], actions[i], failures[i], sites[i + 1])
    ensures IsRun(sites, actions)
    ensures forall i :: 0 <= i < |actions| ==> (Accepted(sites, actions, i) <==> failures[i].None?)
  {
    hide Handle;
    forall i | 0 <= i < |actions|
      ensures sites[i + 1] == After(sites[i], actions[i]) && (Accepted(sites, actions, i) <==> failures[i].None?)
    {
      assert Handled(sites[i], actions[i], failures[i], sites[i + 1]);
    }
  }
}
