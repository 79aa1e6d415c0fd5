/** What holds over every run of requests, by any users and staff in any order. */
module ReviewRuns {
  import opened Options
  import opened Review

  ghost predicate IsRun(sites: seq<Site>, actions: seq<Action>)
  {
    && |sites| == |actions| + 1 && sites[0] == EMPTY
    && forall i :: 0 <= i < |actions| ==> sites[i + 1] == After(sites[i], actions[i])
  }

  predicate Accepted(sites: seq<Site>, actions: seq<Action>, i: nat)
    requires i < |actions| <= |sites|
  {
    Handle(sites[i], actions[i]).Ok?
  }

  lemma {:induction false} RunKeeps(sites: seq<Site>, actions: seq<Action>, i: nat)
    requires IsRun(sites, actions) && i < |sites|
    ensures Inv(sites[i])
  {
    if i > 0 {
      RunKeeps(sites, actions, i - 1);
      RequestKeeps(sites[i - 1], actions[i - 1]);
      assert sites[i] == After(sites[i - 1], actions[i - 1]);
    }
  }

  lemma {:induction false} RunEvolves(sites: seq<Site>, actions: seq<Action>, i: nat, j: nat)
    requires IsRun(sites, actions) && i <= j < |sites|
    ensures Evolves(sites[i], sites[j])
    decreases j
  {
    hide Evolves, After, Inv;
    if i == j {
      EvolvesReflexively(sites[i]);
    } else {
      RunEvolves(sites, actions, i, j - 1);
      RunKeeps(sites, actions, j - 1);
      RequestKeeps(sites[j - 1], actions[j - 1]);
      assert sites[j - 1 + 1] == After(sites[j - 1], actions[j - 1]);
      EvolvesTransitively(sites[i], sites[j - 1], sites[j]);
    }
  }

  /** Only the working revision of a corporation can be a draft or pending, it was written
      by the owner, and a published revision has been approved.
    */
  lemma OnlyTheWorkingRevisionIsOpen(sites: seq<Site>, actions: seq<Action>, i: nat, r: nat)
    requires IsRun(sites, actions) && i < |sites| && r < |sites[i].revisions|
    ensures var s := sites[i]; var c := s.revisions[r].corporation;
            && c < |s.corporations| && s.corporations[c].owner == Some(s.revisions[r].author)
            && (Open(s.revisions[r].status) ==> s.corporations[c].working == Some(r))
            && (s.corporations[c].published == Some(r) ==> s.revisions[r].status == Approved)
  {
    RunKeeps(sites, actions, i);
    var s := sites[i];
    assert RevisionFits(s, r);
    assert CorporationFits(s, s.revisions[r].corporation);
  }

  /** A revision with the same version is the same revision, so a version that still matches
      means that nothing has happened to it; a closed one never changes, nor does the content
      of one that has been submitted.
    */
  lemma VersionPinsRevision(sites: seq<Site>, actions: seq<Action>, i: nat, j: nat, r: nat)
    requires IsRun(sites, actions) && i <= j < |sites| && r < |sites[i].revisions|
    ensures r < |sites[j].revisions|
    ensures var a, b := sites[i].revisions[r], sites[j].revisions[r];
            && a.version <= b.version && (a.version == b.version ==> a == b)
            && (!Open(a.status) ==> a == b) && (a.status != Draft ==> a.content == b.content)
  {
    RunEvolves(sites, actions, i, j);
    assert RevisionEvolves(sites[i].revisions[r], sites[j].revisions[r]);
  }

  /** Of two writes that expect the same version of a revision at most one is accepted. */
  lemma NoLostUpdate(sites: seq<Site>, actions: seq<Action>, i: nat, j: nat, r: nat, expected: nat)
    requires IsRun(sites, actions) && i < j < |actions|
    requires Accepted(sites, actions, i) && Accepted(sites, actions, j)
    requires Expects(actions[i], r, expected)
    ensures !Expects(actions[j], r, expected)
  {
    assert sites[i + 1] == After(sites[i], actions[i]);
    assert sites[i + 1].revisions[r].version == expected + 1;
    VersionPinsRevision(sites, actions, i + 1, j, r);
  }

  predicate Expects(a: Action, r: nat, expected: nat)
  {
    (a.Edit? || a.Submit? || a.Withdraw?) && a.revision == r && a.expected == expected
  }

  predicate IsSubmission(s: Site, a: Action, r: nat)
  {
    && a.Submit? && a.revision == r && Handle(s, a).Ok?
    && r < |s.revisions| && s.revisions[r].status == Draft && s.revisions[r].author == a.user
        && Complete(s.revisions[r].content)
  }

  lemma OnlySubmissionLeavesDraft(s: Site, a: Action, r: nat)
    requires Inv(s) && r < |After(s, a).revisions| && After(s, a).revisions[r].status != Draft
    requires r < |s.revisions| ==> s.revisions[r].status == Draft
    ensures IsSubmission(s, a, r) && After(s, a).revisions[r].content == s.revisions[r].content
  {
    if r < |s.revisions| {
      assert RevisionFits(s, r);
    }
  }

  /** A revision that is no draft has been submitted by its author, the owner, and says
      what it said then.
    */
  lemma {:induction false} WasSubmitted(sites: seq<Site>, actions: seq<Action>, n: nat, r: nat) returns (i: nat)
    requires IsRun(sites, actions) && n < |sites|
    requires r < |sites[n].revisions| && sites[n].revisions[r].status != Draft
    ensures i < n && IsSubmission(sites[i], actions[i], r)
    ensures sites[i].revisions[r].content == sites[n].revisions[r].content
  {
    var m := n - 1;
    assert sites[m + 1] == After(sites[m], actions[m]);
    RunKeeps(sites, actions, m);
    if r < |sites[m].revisions| && sites[m].revisions[r].status != Draft {
      i := WasSubmitted(sites, actions, m, r);
      VersionPinsRevision(sites, actions, m, n, r);
    } else {
      OnlySubmissionLeavesDraft(sites[m], actions[m], r);
      i := m;
    }
  }

  predicate IsApproval(s: Site, a: Action, r: nat)
  {
    a == DecideRevision(r, true) && Handle(s, a).Ok? && r < |s.revisions| && s.revisions[r].status == Pending
  }

  lemma {:induction false} WasApproved(sites: seq<Site>, actions: seq<Action>, n: nat, r: nat) returns (j: nat)
    requires IsRun(sites, actions) && n < |sites|
    requires r < |sites[n].revisions| && sites[n].revisions[r].status == Approved
    ensures j < n && IsApproval(sites[j], actions[j], r)
    ensures sites[j].revisions[r].content == sites[n].revisions[r].content
  {
    var m := n - 1;
    assert sites[m + 1] == After(sites[m], actions[m]);
    RunKeeps(sites, actions, m);
    if r < |sites[m].revisions| && sites[m].revisions[r].status == Approved {
      j := WasApproved(sites, actions, m, r);
      VersionPinsRevision(sites, actions, m, n, r);
    } else {
      j := m;
      VersionPinsRevision(sites, actions, m, n, r);
    }
  }

  /** What a corporation shows was approved while pending, and before that submitted by the
      owner; in between and ever since it has not changed.
    */
  lemma PublishedAsSubmitted(sites: seq<Site>, actions: seq<Action>, n: nat, c: nat) returns (i: nat, j: nat)
    requires IsRun(sites, actions) && n < |sites| && c < |sites[n].corporations|
             && sites[n].corporations[c].published.Some?
    ensures var r := sites[n].corporations[c].published.value;
            && i < j < n && r < |sites[n].revisions|
            && IsSubmission(sites[i], actions[i], r) && IsApproval(sites[j], actions[j], r)
            && sites[n].corporations[c].owner == Some(actions[i].user)
            && (forall k :: i <= k <= n ==>
                  r < |sites[k].revisions| && sites[k].revisions[r].content == sites[n].revisions[r].content)
  {
    hide Handle, After;
    RunKeeps(sites, actions, n);
    var r := sites[n].corporations[c].published.value;
    assert CorporationFits(sites[n], c) && RevisionFits(sites[n], r);
    j := WasApproved(sites, actions, n, r);
    i := WasSubmitted(sites, actions, j, r);
    assert sites[i + 1] == After(sites[i], actions[i]);
    SubmissionCloses(sites[i], actions[i], r);
    RunEvolves(sites, actions, i, n);
    assert RevisionEvolves(sites[i].revisions[r], sites[n].revisions[r]);
    forall k | i <= k <= n
      ensures r < |sites[k].revisions| && sites[k].revisions[r].content == sites[n].revisions[r].content
    {
      if k > i {
        VersionPinsRevision(sites, actions, i + 1, k, r);
        VersionPinsRevision(sites, actions, i + 1, n, r);
      }
    }
  }

  lemma SubmissionCloses(s: Site, a: Action, r: nat)
    requires IsSubmission(s, a, r)
    ensures r < |After(s, a).revisions| && After(s, a).revisions[r].status == Pending
    ensures After(s, a).revisions[r].content == s.revisions[r].content
  {
  }

  /** Once a corporation has an owner it keeps that owner, who is the applicant of its one
      approved claim.
    */
  lemma OwnerIsForever(sites: seq<Site>, actions: seq<Action>, i: nat, j: nat, c: nat) returns (claim: nat)
    requires IsRun(sites, actions) && i <= j < |sites| && c < |sites[i].corporations|
             && sites[i].corporations[c].owner.Some?
    ensures c < |sites[j].corporations| && sites[j].corporations[c].owner == sites[i].corporations[c].owner
    ensures ApprovedFor(sites[j], claim, c) && sites[j].corporations[c].owner == Some(sites[j].claims[claim].applicant)
    ensures forall other :: ApprovedFor(sites[j], other, c) ==> other == claim
  {
    RunEvolves(sites, actions, i, j);
    assert CorporationEvolves(sites[i].corporations[c], sites[j].corporations[c]);
    RunKeeps(sites, actions, j);
    assert CorporationFits(sites[j], c);
    claim :| ApprovedFor(sites[j], claim, c);
    assert ClaimFits(sites[j], claim);
    forall other: nat | ApprovedFor(sites[j], other, c)
      ensures other == claim
    {
      assert ClaimFits(sites[j], other);
    }
  }

  /** A pending revision can always be decided: the check that it is the working one never fails. */
  lemma PendingCanBeDecided(sites: seq<Site>, actions: seq<Action>, i: nat, r: nat, approve: bool)
    requires IsRun(sites, actions) && i < |sites| && r < |sites[i].revisions|
    ensures Handle(sites[i], DecideRevision(r, approve)).Ok? <==> sites[i].revisions[r].status == Pending
  {
    RunKeeps(sites, actions, i);
    assert RevisionFits(sites[i], r);
  }

  lemma DraftIsRecorded(s: Site, a: Action) returns (k: nat)
    requires Inv(s) && a.PostDraft? && Handle(s, a).Ok?
    ensures var t := After(s, a);
            && k < |t.requests| && t.requests[k].author == a.user && t.requests[k].requestId == a.requestId
            && t.requests[k].corporation == a.corporation && Owns(t, a.user, a.corporation)
  {
    var previous := FindRequest(s.requests, a.user, a.requestId);
    k := previous;
  }

  /** A draft request that was accepted can be repeated at any time, whatever the quota, and
      changes nothing; its ID is refused for another corporation.
    */
  lemma DraftsAreIdempotent(sites: seq<Site>, actions: seq<Action>, i: nat, j: nat, c: nat, allowed: bool)
    requires IsRun(sites, actions) && i < j < |sites| && actions[i].PostDraft? && Accepted(sites, actions, i)
    ensures Handle(sites[j], PostDraft(actions[i].user, actions[i].corporation, actions[i].requestId, allowed))
            == Ok(sites[j])
    ensures c != actions[i].corporation ==>
            Handle(sites[j], PostDraft(actions[i].user, c, actions[i].requestId, allowed)).Err?
  {
    hide Handle, After;
    var a := actions[i];
    RunKeeps(sites, actions, i);
    var k := DraftIsRecorded(sites[i], a);
    assert sites[i + 1] == After(sites[i], a);
    RunEvolves(sites, actions, i + 1, j);
    RunKeeps(sites, actions, j);
    assert CorporationEvolves(sites[i + 1].corporations[a.corporation], sites[j].corporations[a.corporation]);
    RepeatedDraft(sites[j], PostDraft(a.user, a.corporation, a.requestId, allowed), k);
    RepeatedDraft(sites[j], PostDraft(a.user, c, a.requestId, allowed), k);
  }

  lemma RepeatedDraft(s: Site, a: Action, k: nat)
    requires a.PostDraft? && k < |s.requests| && FindRequest(s.requests, a.user, a.requestId) == k
    ensures if !Owns(s, a.user, a.corporation) then Handle(s, a) == Err(NotFound)
            else if s.requests[k].corporation != a.corporation then Handle(s, a) == Err(Conflict)
            else Handle(s, a) == Ok(s)
  {
  }

  lemma ClaimIsRecorded(s: Site, a: Action) returns (k: nat)
    requires Inv(s) && a.PostClaim? && Handle(s, a).Ok?
    ensures var t := After(s, a);
            && k < |t.claims| && t.claims[k].applicant == a.user && t.claims[k].requestId == a.requestId
            && t.claims[k].target == a.target && t.claims[k].text == a.text
  {
    k := FindClaim(s.claims, a.user, a.requestId);
  }

  /** So is a claim, and its ID is refused for another one. */
  lemma ClaimsAreIdempotent(sites: seq<Site>, actions: seq<Action>, i: nat, j: nat, again: Action)
    requires IsRun(sites, actions) && i < j < |sites| && actions[i].PostClaim? && Accepted(sites, actions, i)
    requires again.PostClaim? && again.user == actions[i].user && again.requestId == actions[i].requestId
    ensures Handle(sites[j], again)
            == if again.target == actions[i].target && again.text == actions[i].text then Ok(sites[j])
               else Err(Conflict)
  {
    hide Handle, After;
    var a := actions[i];
    RunKeeps(sites, actions, i);
    var k := ClaimIsRecorded(sites[i], a);
    assert sites[i + 1] == After(sites[i], a);
    RunEvolves(sites, actions, i + 1, j);
    RunKeeps(sites, actions, j);
    assert ClaimEvolves(sites[i + 1].claims[k], sites[j].claims[k]);
    RepeatedClaim(sites[j], again, k);
  }

  lemma RepeatedClaim(s: Site, a: Action, k: nat)
    requires a.PostClaim? && k < |s.claims| && FindClaim(s.claims, a.user, a.requestId) == k
    ensures Handle(s, a)
            == if s.claims[k].target == a.target && s.claims[k].text == a.text then Ok(s) else Err(Conflict)
  {
  }
}
