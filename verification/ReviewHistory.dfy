/** Each row is what the accepted requests have made of it. */
module ReviewHistory {
  import opened Options
  import opened Review
  import opened ReviewRuns
  import BlobText

  // ----- Which requests are accepted -----

  /** A claim or draft request of this user with this ID has been accepted before. */
  predicate ClaimedBefore(s: Site, a: Action)
    requires a.PostClaim?
  {
    exists i :: 0 <= i < |s.claims| && s.claims[i].applicant == a.user && s.claims[i].requestId == a.requestId
  }

  predicate SameClaim(s: Site, a: Action)
    requires a.PostClaim?
  {
    exists i :: 0 <= i < |s.claims| && s.claims[i].applicant == a.user && s.claims[i].requestId == a.requestId
      && s.claims[i].target == a.target && s.claims[i].text == a.text
  }

  predicate DraftedBefore(s: Site, a: Action)
    requires a.PostDraft?
  {
    exists i :: 0 <= i < |s.requests| && s.requests[i].author == a.user && s.requests[i].requestId == a.requestId
  }

  predicate SameDraft(s: Site, a: Action)
    requires a.PostDraft?
  {
    exists i :: 0 <= i < |s.requests| && s.requests[i].author == a.user && s.requests[i].requestId == a.requestId
      && s.requests[i].corporation == a.corporation
  }

  /** The target exists or can be created, nobody owns it, and this user has no claim for it pending. */
  predicate Claimable(s: Site, target: Target, user: User)
  {
    && (target.Existing? ==> target.corporation < |s.corporations|)
    && forall c :: 0 <= c < |s.corporations| && (if target.Existing? then c == target.corporation
                                                 else FirstWith(s, c, target.key)) ==>
         s.corporations[c].owner.None? && !HasPendingClaim(s, c, user)
  }

  predicate FirstWith(s: Site, c: nat, key: int)
    requires c < |s.corporations|
  {
    s.corporations[c].key == key && forall i :: 0 <= i < c ==> s.corporations[i].key != key
  }

  predicate Reviewed(s: Site, user: User, r: nat, expected: nat, status: Status)
  {
    && r < |s.revisions| && s.revisions[r].author == user && s.revisions[r].status == status
    && s.revisions[r].version == expected
  }

  /** Not too long, and more than white space. */
  predicate HasText(text: string, limit: nat)
  {
    |text| <= limit && exists i :: 0 <= i < |text| && !BlobText.IsSpace(text[i])
  }

  predicate UnderReview(s: Site, c: nat)
    requires c < |s.corporations|
  {
    exists r :: 0 <= r < |s.revisions| && s.revisions[r].corporation == c && s.revisions[r].status == Pending
  }

  predicate Admissible(s: Site, a: Action)
  {
    match a
    case PostClaim(user, _, target, _, allowed) =>
      if ClaimedBefore(s, a) then SameClaim(s, a) else allowed && Claimable(s, target, user)
    case PostDraft(user, c, _, allowed) =>
      && c < |s.corporations| && s.corporations[c].owner == Some(user)
      && if DraftedBefore(s, a) then SameDraft(s, a) else allowed && !UnderReview(s, c)
    case Edit(user, r, expected, edited) => Reviewed(s, user, r, expected, Draft) && edited.Some?
    case Submit(user, r, expected) =>
      && Reviewed(s, user, r, expected, Draft)
      && HasText(s.revisions[r].content.introduction, 5000) && HasText(s.revisions[r].content.publicContact, 200)
    case Withdraw(user, r, expected) => Reviewed(s, user, r, expected, Pending)
    case DecideClaim(i, approve) =>
      && i < |s.claims| && s.claims[i].status == ClaimPending
      && (approve ==> forall j :: 0 <= j < |s.claims| && s.claims[j].corporation == s.claims[i].corporation ==>
            s.claims[j].status != ClaimApproved)
    case DecideRevision(r, _) => r < |s.revisions| && s.revisions[r].status == Pending
    case SetListed(c, _) => c < |s.corporations|
  }

  lemma Replayed(s: Site, a: Action)
    requires Inv(s) && a.PostClaim? && FindClaim(s.claims, a.user, a.requestId) < |s.claims|
    ensures ClaimedBefore(s, a)
    ensures var k := FindClaim(s.claims, a.user, a.requestId);
      SameClaim(s, a) <==> s.claims[k].target == a.target && s.claims[k].text == a.text
  {
  }

  /** The corporation that a claim is for is the one that counts for Claimable. */
  lemma TargetClaimable(s: Site, target: Target, user: User)
    requires Inv(s) && ClaimTarget(s, target).Ok?
    ensures var t, c := ClaimTarget(s, target).value.0, ClaimTarget(s, target).value.1;
      Claimable(s, target, user) <==> t.corporations[c].owner.None? && !HasPendingClaim(t, c, user)
  {
    if target.Named? {
      var c := FindKey(s.corporations, target.key);
      if c < |s.corporations| {
        assert FirstWith(s, c, target.key);
        assert forall d :: 0 <= d < |s.corporations| && FirstWith(s, d, target.key) ==> d == c;
      } else {
        forall i | 0 <= i < |s.claims| ensures s.claims[i].corporation != c {
          assert ClaimFits(s, i);
        }
        var t := ClaimTarget(s, target).value.0;
        assert t.claims == s.claims && !HasPendingClaim(t, c, user);
        assert forall d :: 0 <= d < |s.corporations| ==> !FirstWith(s, d, target.key);
      }
    }
  }

  lemma ClaimAdmissible(s: Site, a: Action)
    requires Inv(s) && a.PostClaim?
    ensures PostedClaim(s, a).Ok? <==> Admissible(s, a)
  {
    hide Claimable, Inv, HasPendingClaim;
    if FindClaim(s.claims, a.user, a.requestId) < |s.claims| {
      Replayed(s, a);
    } else if ClaimTarget(s, a.target).Ok? {
      TargetClaimable(s, a.target, a.user);
    } else {
      NoTarget(s, a.target, a.user);
    }
  }

  lemma NoTarget(s: Site, target: Target, user: User)
    requires ClaimTarget(s, target).Err?
    ensures !Claimable(s, target, user)
  {
  }

  lemma DraftAdmissible(s: Site, a: Action)
    requires Inv(s) && a.PostDraft?
    ensures PostedDraft(s, a).Ok? <==> Admissible(s, a)
  {
    var previous := FindRequest(s.requests, a.user, a.requestId);
    if Owns(s, a.user, a.corporation) {
      assert CorporationFits(s, a.corporation);
      if previous < |s.requests| {
        assert DraftedBefore(s, a);
      }
      if UnderReview(s, a.corporation) {
        var r :| 0 <= r < |s.revisions| && s.revisions[r].corporation == a.corporation
          && s.revisions[r].status == Pending;
        assert RevisionFits(s, r);
      }
    }
  }

  lemma RevisionAdmissible(s: Site, user: User, r: nat, expected: nat, status: Status)
    requires Inv(s) && Open(status)
    ensures Checked(s, user, r, expected, status).None? <==> Reviewed(s, user, r, expected, status)
  {
    if r < |s.revisions| {
      assert RevisionFits(s, r);
    }
  }

  lemma DecisionAdmissible(s: Site, a: Action)
    requires Inv(s) && a.DecideClaim?
    ensures DecidedClaim(s, a).Ok? <==> Admissible(s, a)
  {
    if a.claim < |s.claims| {
      assert ClaimFits(s, a.claim);
      var c := s.claims[a.claim].corporation;
      assert CorporationFits(s, c);
      if s.corporations[c].owner.Some? {
        var i: nat :| ApprovedFor(s, i, c);
        assert s.claims[i].corporation == c;
      }
      forall j | 0 <= j < |s.claims| && s.claims[j].corporation == c && s.claims[j].status == ClaimApproved
        ensures s.corporations[c].owner.Some?
      {
        assert ClaimFits(s, j);
      }
    }
  }

  lemma RequestAdmissible(s: Site, a: Action)
    requires Inv(s)
    ensures Handle(s, a).Ok? <==> Admissible(s, a)
  {
    hide Inv, PostedClaim, PostedDraft, DecidedClaim, Checked, Claimable, ClaimedBefore, DraftedBefore, UnderReview;
    match a
    case PostClaim(_, _, _, _, _) => ClaimAdmissible(s, a);
    case PostDraft(_, _, _, _) => DraftAdmissible(s, a);
    case Edit(user, r, expected, _) => RevisionAdmissible(s, user, r, expected, Draft);
    case Submit(user, r, expected) => RevisionAdmissible(s, user, r, expected, Draft);
    case Withdraw(user, r, expected) => RevisionAdmissible(s, user, r, expected, Pending);
    case DecideClaim(_, _) => DecisionAdmissible(s, a);
    case DecideRevision(r, _) => RevisionDecidable(s, r, a.approve);
    case SetListed(_, _) =>
  }

  lemma RevisionDecidable(s: Site, r: nat, approve: bool)
    requires Inv(s)
    ensures DecidedRevision(s, DecideRevision(r, approve)).Ok? <==>
            r < |s.revisions| && s.revisions[r].status == Pending
  {
    if r < |s.revisions| {
      assert RevisionFits(s, r);
    }
  }

  /** Over all runs a request is accepted exactly if it is admissible: for an edit, that its author knows
      the version of his draft; for an approval, that nobody has been approved. */
  lemma AcceptedExactly(sites: seq<Site>, actions: seq<Action>, i: nat, a: Action)
    requires IsRun(sites, actions) && i < |sites|
    ensures Handle(sites[i], a).Ok? <==> Admissible(sites[i], a)
  {
    RunKeeps(sites, actions, i);
    RequestAdmissible(sites[i], a);
  }

  // ----- What an accepted request does to each row -----

  /** The content of the corporation's newest revision, or that of an empty page. */
  function NewestContent(revisions: seq<Revision>, c: nat): Content
  {
    if revisions == [] then Content("", "", 0)
    else
      var last := revisions[|revisions| - 1];
      if last.corporation == c then last.content else NewestContent(revisions[..|revisions| - 1], c)
  }

  /** The working revision is the corporation's newest one. */
  ghost predicate WorkingIsNewest(s: Site)
  {
    forall c, r :: 0 <= c < |s.corporations| && 0 <= r < |s.revisions| && s.revisions[r].corporation == c ==>
      s.corporations[c].working.Some? && r <= s.corporations[c].working.value
  }

  lemma {:induction false} NewestAt(revisions: seq<Revision>, c: nat, r: nat)
    requires r < |revisions| && revisions[r].corporation == c
    requires forall q :: r < q < |revisions| ==> revisions[q].corporation != c
    ensures NewestContent(revisions, c) == revisions[r].content
    decreases |revisions|
  {
    if r < |revisions| - 1 {
      NewestAt(revisions[..|revisions| - 1], c, r);
    }
  }

  lemma {:induction false} NoneYet(revisions: seq<Revision>, c: nat)
    requires forall q :: 0 <= q < |revisions| ==> revisions[q].corporation != c
    ensures NewestContent(revisions, c) == Content("", "", 0)
  {
    if revisions != [] {
      NoneYet(revisions[..|revisions| - 1], c);
    }
  }

  /** The request opens a new draft. */
  predicate Creates(s: Site, a: Action)
  {
    && a.PostDraft? && Admissible(s, a) && !DraftedBefore(s, a)
    && forall r :: 0 <= r < |s.revisions| && s.revisions[r].corporation == a.corporation ==>
         s.revisions[r].status != Draft
  }

  /** The request is about that revision and may change it. */
  predicate Writes(a: Action, r: nat)
  {
    (a.Edit? || a.Submit? || a.Withdraw? || a.DecideRevision?) && a.revision == r
  }

  function WrittenStatus(a: Action): Status
    requires a.Edit? || a.Submit? || a.Withdraw? || a.DecideRevision?
  {
    match a
    case Edit(_, _, _, _) => Draft
    case Submit(_, _, _) => Pending
    case Withdraw(_, _, _) => Withdrawn
    case DecideRevision(_, approve) => if approve then Approved else Rejected
  }

  /** A revision changes only by an admissible request that is about it: a new version, with the status
      that the request gives it, and for an edit exactly the edited content. */
  lemma RevisionChange(s: Site, a: Action, r: nat)
    requires Inv(s) && r < |s.revisions|
    ensures var before, after := s.revisions[r], After(s, a).revisions;
      && r < |after|
      && after[r] == if Writes(a, r) && Admissible(s, a)
                     then Revision(before.corporation, before.author, before.version + 1, WrittenStatus(a),
                                   if a.Edit? then a.edited.value else before.content)
                     else before
  {
    hide Inv, Admissible, HasPendingClaim;
    RequestAdmissible(s, a);
  }

  lemma DraftState(s: Site, a: Action)
    requires Inv(s) && WorkingIsNewest(s) && a.PostDraft? && Admissible(s, a)
    ensures var corporation := s.corporations[a.corporation];
      var current := Lookup(s, corporation.working);
      && (current.None? ==> corporation.published.None?)
      && (current.Some? ==> current.value.content == NewestContent(s.revisions, a.corporation))
      && (current.None? ==> NewestContent(s.revisions, a.corporation) == Content("", "", 0))
      && (Creates(s, a) <==> !DraftedBefore(s, a) && !(current.Some? && current.value.status == Draft))
  {
    hide Admissible, DraftedBefore;
    var c := a.corporation;
    OwnsIfAdmissible(s, a);
    assert CorporationFits(s, c);
    var working := s.corporations[c].working;
    if working.Some? {
      NewestAt(s.revisions, c, working.value);
    } else {
      NoneYet(s.revisions, c);
    }
    forall r | 0 <= r < |s.revisions| && s.revisions[r].corporation == c && s.revisions[r].status == Draft
      ensures working == Some(r)
    {
      assert RevisionFits(s, r);
    }
  }

  lemma OwnsIfAdmissible(s: Site, a: Action)
    requires a.PostDraft? && Admissible(s, a)
    ensures a.corporation < |s.corporations|
  {
  }

  /** Revisions are added only for new drafts, which continue from the corporation's newest revision. */
  lemma RevisionAdded(s: Site, a: Action)
    requires Inv(s) && WorkingIsNewest(s)
    ensures |After(s, a).revisions| == |s.revisions| + if Creates(s, a) then 1 else 0
    ensures Creates(s, a) ==>
      After(s, a).revisions[|s.revisions|]
      == Revision(a.corporation, a.user, 1, Draft, NewestContent(s.revisions, a.corporation))
  {
    hide Inv, WorkingIsNewest, Admissible, HasPendingClaim, DraftedBefore;
    RequestAdmissible(s, a);
    if a.PostDraft? && Admissible(s, a) {
      DraftState(s, a);
      DraftedExactly(s, a);
    }
  }

  lemma DraftedExactly(s: Site, a: Action)
    requires a.PostDraft?
    ensures DraftedBefore(s, a) <==> FindRequest(s.requests, a.user, a.requestId) < |s.requests|
  {
  }

  /** The request claims a corporation for the first time with this ID. */
  predicate Claims(s: Site, a: Action)
  {
    a.PostClaim? && Admissible(s, a) && !ClaimedBefore(s, a)
  }

  /** A corporation is added only for a new claim of an unused name. */
  predicate Founds(s: Site, a: Action)
  {
    && Claims(s, a) && a.target.Named?
    && forall c :: 0 <= c < |s.corporations| ==> s.corporations[c].key != a.target.key
  }

  /** A corporation's owner, working and published revision and listing change only by an approved
      claim, a new draft, an approved revision and a setting; its name never does. */
  lemma CorporationChange(s: Site, a: Action, c: nat)
    requires Inv(s) && WorkingIsNewest(s) && c < |s.corporations|
    ensures var before, after := s.corporations[c], After(s, a).corporations;
      && c < |after| && after[c].key == before.key
      && after[c].owner == (if a.DecideClaim? && a.approve && Admissible(s, a) && s.claims[a.claim].corporation == c
                            then Some(s.claims[a.claim].applicant) else before.owner)
      && after[c].working == (if Creates(s, a) && a.corporation == c then Some(|s.revisions|) else before.working)
      && after[c].published == (if a.DecideRevision? && a.approve && Admissible(s, a)
                                   && s.revisions[a.revision].corporation == c
                                then Some(a.revision) else before.published)
      && after[c].listed == (if a.SetListed? && a.corporation == c then a.listed else before.listed)
  {
    hide Inv, WorkingIsNewest, Admissible, HasPendingClaim, DraftedBefore, ClaimedBefore;
    RequestAdmissible(s, a);
    if a.PostDraft? && Admissible(s, a) {
      DraftState(s, a);
      DraftedExactly(s, a);
    }
    DecidedCorporations(s, a);
  }

  lemma DecidedCorporations(s: Site, a: Action)
    requires Inv(s)
    ensures a.DecideClaim? && Admissible(s, a) ==>
      a.claim < |s.claims| && s.claims[a.claim].corporation < |s.corporations|
    ensures a.DecideRevision? && Admissible(s, a) ==>
      a.revision < |s.revisions| && s.revisions[a.revision].corporation < |s.corporations|
    ensures a.SetListed? && Admissible(s, a) ==> a.corporation < |s.corporations|
  {
    if a.DecideRevision? && Admissible(s, a) {
      assert RevisionFits(s, a.revision);
    }
    if a.DecideClaim? && Admissible(s, a) {
      assert ClaimFits(s, a.claim);
    }
  }

  lemma CorporationAdded(s: Site, a: Action)
    requires Inv(s)
    ensures |After(s, a).corporations| == |s.corporations| + if Founds(s, a) then 1 else 0
    ensures Founds(s, a) ==>
      After(s, a).corporations[|s.corporations|] == Corporation(a.target.key, None, None, None, true)
  {
    hide Inv, Admissible, HasPendingClaim, ClaimedBefore;
    RequestAdmissible(s, a);
    if a.PostClaim? {
      ClaimedExactly(s, a);
    }
  }

  lemma ClaimedExactly(s: Site, a: Action)
    requires a.PostClaim?
    ensures ClaimedBefore(s, a) <==> FindClaim(s.claims, a.user, a.requestId) < |s.claims|
  {
  }

  /** A claim changes only by its decision. */
  lemma ClaimChange(s: Site, a: Action, i: nat)
    requires Inv(s) && i < |s.claims|
    ensures var before, after := s.claims[i], After(s, a).claims;
      && i < |after|
      && after[i] == (if a.DecideClaim? && a.claim == i && Admissible(s, a)
                      then before.(status := if a.approve then ClaimApproved else ClaimRejected) else before)
  {
    hide Inv, Admissible, HasPendingClaim;
    RequestAdmissible(s, a);
  }

  /** A new claim is pending, for the corporation that is meant or was founded for it. */
  lemma ClaimAdded(s: Site, a: Action)
    requires Inv(s)
    ensures |After(s, a).claims| == |s.claims| + if Claims(s, a) then 1 else 0
    ensures Claims(s, a) ==>
      var claim, t := After(s, a).claims[|s.claims|], After(s, a);
      && claim.applicant == a.user && claim.requestId == a.requestId && claim.target == a.target && claim.text == a.text
      && claim.status == ClaimPending && claim.corporation < |t.corporations|
      && claim.key == t.corporations[claim.corporation].key
      && (match a.target case Existing(c) => claim.corporation == c case Named(key) => claim.key == key)
  {
    hide Inv, Admissible, HasPendingClaim, ClaimedBefore;
    RequestAdmissible(s, a);
    if a.PostClaim? {
      ClaimedExactly(s, a);
    }
  }

  /** A first draft request is remembered with the working revision that it opened or found. */
  lemma DraftRequestAdded(s: Site, a: Action)
    requires Inv(s) && WorkingIsNewest(s)
    ensures var t := After(s, a);
      if a.PostDraft? && Admissible(s, a) && !DraftedBefore(s, a) then
        && a.corporation < |t.corporations| && t.corporations[a.corporation].working.Some?
        && t.requests == s.requests + [DraftRequest(a.user, a.requestId, a.corporation,
                                                    t.corporations[a.corporation].working.value)]
      else t.requests == s.requests
  {
    hide Inv, WorkingIsNewest, Admissible, HasPendingClaim, DraftedBefore;
    RequestAdmissible(s, a);
    if a.PostDraft? && Admissible(s, a) {
      DraftState(s, a);
      DraftedExactly(s, a);
    }
  }

  lemma StepNewest(s: Site, a: Action)
    requires Inv(s) && WorkingIsNewest(s)
    ensures WorkingIsNewest(After(s, a))
  {
    hide Inv, Creates, Admissible, After;
    var t := After(s, a);
    RevisionAdded(s, a);
    CorporationAdded(s, a);
    forall c, r | 0 <= c < |t.corporations| && 0 <= r < |t.revisions| && t.revisions[r].corporation == c
      ensures t.corporations[c].working.Some? && r <= t.corporations[c].working.value
    {
      if r < |s.revisions| {
        RevisionChange(s, a, r);
        RevisionsBelong(s, r);
      } else {
        CreatesFor(s, a);
      }
      CorporationChange(s, a, c);
    }
  }

  lemma RevisionsBelong(s: Site, r: nat)
    requires Inv(s) && r < |s.revisions|
    ensures s.revisions[r].corporation < |s.corporations|
  {
    assert RevisionFits(s, r);
  }

  lemma CreatesFor(s: Site, a: Action)
    requires Creates(s, a)
    ensures a.PostDraft? && a.corporation < |s.corporations|
  {
  }

  // ----- What the requests of a run have made of a revision -----

  lemma {:induction false} RunNewest(sites: seq<Site>, actions: seq<Action>, i: nat)
    requires IsRun(sites, actions) && i < |sites|
    ensures Inv(sites[i]) && WorkingIsNewest(sites[i])
  {
    RunKeeps(sites, actions, i);
    if i > 0 {
      RunNewest(sites, actions, i - 1);
      StepNewest(sites[i - 1], actions[i - 1]);
      assert sites[i] == After(sites[i - 1], actions[i - 1]);
    }
  }

  /** The accepted requests about revision `r` among the first `n`. */
  function WritesTo(sites: seq<Site>, actions: seq<Action>, r: nat, n: nat): (k: nat)
    requires n <= |actions| <= |sites|
  {
    if n == 0 then 0
    else
      WritesTo(sites, actions, r, n - 1)
      + if r < |sites[n - 1].revisions| && Writes(actions[n - 1], r) && Accepted(sites, actions, n - 1) then 1 else 0
  }

  /** An accepted request that wrote or created revision `r`. */
  predicate Made(sites: seq<Site>, actions: seq<Action>, r: nat, i: nat)
    requires i < |actions| <= |sites|
  {
    && Accepted(sites, actions, i)
    && if r < |sites[i].revisions| then Writes(actions[i], r)
       else r == |sites[i].revisions| && Creates(sites[i], actions[i])
  }

  /** A revision has the content of its last accepted edit, or that of the corporation's newest revision
      when it was created. */
  lemma {:induction false} ContentIsLastEdit(sites: seq<Site>, actions: seq<Action>, n: nat, r: nat) returns (i: nat)
    requires IsRun(sites, actions) && n < |sites| && r < |sites[n].revisions|
    ensures i < n && Made(sites, actions, r, i)
    ensures var a, content := actions[i], sites[n].revisions[r].content;
      if a.Edit? then a.edited == Some(content)
      else r == |sites[i].revisions| && a.PostDraft? && content == NewestContent(sites[i].revisions, a.corporation)
    ensures forall k :: i < k < n ==> !(Made(sites, actions, r, k) && actions[k].Edit?)
  {
    hide Handle, After, Creates, Inv, WorkingIsNewest;
    var m := n - 1;
    var s, a := sites[m], actions[m];
    assert sites[m + 1] == After(s, a);
    RunNewest(sites, actions, m);
    RequestAdmissible(s, a);
    if r < |s.revisions| {
      RevisionChange(s, a, r);
      if a.Edit? && Made(sites, actions, r, m) {
        i := m;
      } else {
        i := ContentIsLastEdit(sites, actions, m, r);
      }
    } else {
      RevisionAdded(s, a);
      CreatesIsDraft(s, a);
      i := m;
    }
  }

  lemma CreatesIsDraft(s: Site, a: Action)
    requires Creates(s, a)
    ensures a.PostDraft? && Admissible(s, a)
  {
  }

  /** Its status is what the last accepted request about it says. */
  lemma {:induction false} StatusIsLastWrite(sites: seq<Site>, actions: seq<Action>, n: nat, r: nat) returns (i: nat)
    requires IsRun(sites, actions) && n < |sites| && r < |sites[n].revisions|
    ensures i < n && Made(sites, actions, r, i)
    ensures var a, status := actions[i], sites[n].revisions[r].status;
      if r < |sites[i].revisions| then status == WrittenStatus(a) else status == Draft
    ensures forall k :: i < k < n ==> !Made(sites, actions, r, k)
  {
    hide Handle, After, Creates, Inv, WorkingIsNewest;
    var m := n - 1;
    var s, a := sites[m], actions[m];
    assert sites[m + 1] == After(s, a);
    RunNewest(sites, actions, m);
    RequestAdmissible(s, a);
    if r < |s.revisions| {
      RevisionChange(s, a, r);
      if Made(sites, actions, r, m) {
        i := m;
      } else {
        i := StatusIsLastWrite(sites, actions, m, r);
      }
    } else {
      RevisionAdded(s, a);
      CreatesIsDraft(s, a);
      i := m;
    }
  }

  /** And its version counts them. */
  lemma {:induction false} VersionCountsWrites(sites: seq<Site>, actions: seq<Action>, n: nat, r: nat)
    requires IsRun(sites, actions) && n < |sites| && r < |sites[n].revisions|
    ensures sites[n].revisions[r].version == 1 + WritesTo(sites, actions, r, n)
  {
    hide Handle, After, Creates, Inv, WorkingIsNewest;
    var m := n - 1;
    var s, a := sites[m], actions[m];
    assert sites[m + 1] == After(s, a);
    RunNewest(sites, actions, m);
    RequestAdmissible(s, a);
    if r < |s.revisions| {
      RevisionChange(s, a, r);
      VersionCountsWrites(sites, actions, m, r);
    } else {
      RevisionAdded(s, a);
      NoWritesBefore(sites, actions, m, r);
    }
  }

  lemma {:induction false} NoWritesBefore(sites: seq<Site>, actions: seq<Action>, n: nat, r: nat)
    requires IsRun(sites, actions) && n < |sites| && |sites[n].revisions| <= r
    ensures WritesTo(sites, actions, r, n) == 0
  {
    hide Handle, After, Inv;
    if n > 0 {
      RunEvolves(sites, actions, n - 1, n);
      NoWritesBefore(sites, actions, n - 1, r);
    }
  }

  /** An accepted edit stores exactly what was sent, one version later, and touches nothing else. */
  lemma EditStores(sites: seq<Site>, actions: seq<Action>, i: nat)
    requires IsRun(sites, actions) && i < |actions| && actions[i].Edit? && Accepted(sites, actions, i)
    ensures var a, s := actions[i], sites[i];
      && a.revision < |s.revisions| && a.edited.Some?
      && var before := s.revisions[a.revision];
      && before.author == a.user && before.version == a.expected && before.status == Draft
      && sites[i + 1] == s.(revisions := s.revisions[a.revision :=
           Revision(before.corporation, a.user, a.expected + 1, Draft, a.edited.value)])
  {
    RunKeeps(sites, actions, i);
    RequestAdmissible(sites[i], actions[i]);
    assert sites[i + 1] == After(sites[i], actions[i]);
  }
}
