/** Corporation pages: claiming a corporation, drafting its page, and review before
    publication. Each request is one transaction that happens fully or not at all.

    The request handlers are functions from one state of the database to the next, or to the reason
    why a request was refused. A site satisfies the invariant when every reference between its rows
    fits, and rows evolve when they change only forwards; every request keeps the first and is an
    instance of the second.
  */
module Review {
  import opened Options
  import BlobText

  type User = int
  type RequestId = int

  const INTRODUCTION_LIMIT: nat := 5000
  const CONTACT_LIMIT: nat := 200

  /** The two texts a submission is checked for, and all other fields of a page. */
  datatype Content = Content(introduction: string, publicContact: string, other: int)

  const DEFAULT_CONTENT := Content("", "", 0)

  datatype Status = Draft | Pending | Withdrawn | Approved | Rejected

  datatype Revision = Revision(corporation: nat, author: User, version: nat, status: Status, content: Content)

  datatype Corporation = Corporation(key: int, owner: Option<User>, working: Option<nat>, published: Option<nat>,
      listed: bool)

  datatype ClaimStatus = ClaimPending | ClaimApproved | ClaimRejected

  datatype Target = Existing(corporation: nat) | Named(key: int)

  datatype Claim = Claim(corporation: nat, applicant: User, requestId: RequestId, target: Target, text: int, key: int,
      status: ClaimStatus)

  datatype DraftRequest = DraftRequest(author: User, requestId: RequestId, corporation: nat, revision: nat)

  /** The tables; a row's position is its primary key. */
  datatype Site = Site(corporations: seq<Corporation>, revisions: seq<Revision>, claims: seq<Claim>,
      requests: seq<DraftRequest>)

  const EMPTY := Site([], [], [], [])

  datatype Failure = NotFound | Conflict | Throttled | Invalid

  /** The requests that write. `allowed` is the outcome of the daily quota, `edited` the
      new content or nothing if a field is not valid.
    */
  datatype Action =
    | PostClaim(user: User, requestId: RequestId, target: Target, text: int, allowed: bool)
    | PostDraft(user: User, corporation: nat, requestId: RequestId, allowed: bool)
    | Edit(user: User, revision: nat, expected: nat, edited: Option<Content>)
    | Submit(user: User, revision: nat, expected: nat)
    | Withdraw(user: User, revision: nat, expected: nat)
    | DecideClaim(claim: nat, approve: bool)
    | DecideRevision(revision: nat, approve: bool)
    | SetListed(corporation: nat, listed: bool)

  predicate IsBlank(s: string)
  {
    forall i :: 0 <= i < |s| ==> BlobText.IsSpace(s[i])
  }

  predicate Complete(content: Content)
  {
    && |content.introduction| <= INTRODUCTION_LIMIT && !IsBlank(content.introduction)
    && |content.publicContact| <= CONTACT_LIMIT && !IsBlank(content.publicContact)
  }

  // ----- Looking rows up -----

  predicate Owns(s: Site, user: User, corporation: nat)
  {
    corporation < |s.corporations| && s.corporations[corporation].owner == Some(user)
  }

  function FindKey(corporations: seq<Corporation>, key: int): (k: nat)
    ensures k <= |corporations| && (k < |corporations| ==> corporations[k].key == key)
    ensures forall i :: 0 <= i < k ==> corporations[i].key != key
  {
    if corporations == [] || corporations[0].key == key then 0 else 1 + FindKey(corporations[1..], key)
  }

  function FindClaim(claims: seq<Claim>, user: User, requestId: RequestId): (k: nat)
    ensures k <= |claims| && (k < |claims| ==> claims[k].applicant == user && claims[k].requestId == requestId)
    ensures forall i :: 0 <= i < k ==> claims[i].applicant != user || claims[i].requestId != requestId
  {
    if claims == [] || (claims[0].applicant == user && claims[0].requestId == requestId) then 0
    else 1 + FindClaim(claims[1..], user, requestId)
  }

  function FindRequest(requests: seq<DraftRequest>, user: User, requestId: RequestId): (k: nat)
    ensures k <= |requests| && (k < |requests| ==> requests[k].author == user && requests[k].requestId == requestId)
    ensures forall i :: 0 <= i < k ==> requests[i].author != user || requests[i].requestId != requestId
  {
    if requests == [] || (requests[0].author == user && requests[0].requestId == requestId) then 0
    else 1 + FindRequest(requests[1..], user, requestId)
  }

  predicate HasPendingClaim(s: Site, corporation: nat, user: User)
  {
    exists i :: 0 <= i < |s.claims| && s.claims[i].corporation == corporation && s.claims[i].applicant == user
      && s.claims[i].status == ClaimPending
  }

  // ----- The handlers -----

  /** The corporation a claim is for, created if it is claimed by an unused name. */
  function ClaimTarget(s: Site, target: Target): (r: Result<(Site, nat), Failure>)
    ensures r.Ok? ==> r.value.1 < |r.value.0.corporations|
  {
    match target
    case Existing(c) => if c < |s.corporations| then Ok((s, c)) else Err(NotFound)
    case Named(key) =>
      var c := FindKey(s.corporations, key);
      if c < |s.corporations| then Ok((s, c))
      else Ok((s.(corporations := s.corporations + [Corporation(key, None, None, None, true)]), c))
  }

  /** `Claims.post`. */
  function PostedClaim(s: Site, a: Action): Result<Site, Failure>
    requires a.PostClaim?
  {
    var previous := FindClaim(s.claims, a.user, a.requestId);
    if previous < |s.claims| then
      if s.claims[previous].target != a.target || s.claims[previous].text != a.text then Err(Conflict) else Ok(s)
    else if !a.allowed then Err(Throttled)
    else
      match ClaimTarget(s, a.target)
      case Err(e) => Err(e)
      case Ok((t, c)) =>
        if t.corporations[c].owner.Some? || HasPendingClaim(t, c, a.user) then Err(Conflict)
        else
          var key := t.corporations[c].key;
          Ok(t.(claims := t.claims + [Claim(c, a.user, a.requestId, a.target, a.text, key, ClaimPending)]))
  }

  /** `Draft.post`. */
  function PostedDraft(s: Site, a: Action): Result<Site, Failure>
    requires a.PostDraft?
  {
    if !Owns(s, a.user, a.corporation) then Err(NotFound)
    else
      var previous := FindRequest(s.requests, a.user, a.requestId);
      if previous < |s.requests| then
        if s.requests[previous].corporation != a.corporation then Err(Conflict) else Ok(s)
      else if !a.allowed then Err(Throttled)
      else
        var corporation := s.corporations[a.corporation];
        var current := Lookup(s, corporation.working);
        if current.Some? && current.value.status == Pending then Err(Conflict)
        else if current.Some? && current.value.status == Draft then
          Ok(s.(requests := s.requests + [DraftRequest(a.user, a.requestId, a.corporation, corporation.working.value)]))
        else
          var source := if current.Some? then current else Lookup(s, corporation.published);
          var content := if source.Some? then source.value.content else DEFAULT_CONTENT;
          var pk := |s.revisions|;
          Ok(s.(revisions := s.revisions + [Revision(a.corporation, a.user, 1, Draft, content)],
                corporations := s.corporations[a.corporation := corporation.(working := Some(pk))],
                requests := s.requests + [DraftRequest(a.user, a.requestId, a.corporation, pk)]))
  }

  function Lookup(s: Site, pk: Option<nat>): (r: Option<Revision>)
    ensures r.Some? ==> pk.Some? && pk.value < |s.revisions| && r.value == s.revisions[pk.value]
  {
    if pk.Some? && pk.value < |s.revisions| then Some(s.revisions[pk.value]) else None
  }

  /** `locked_revision` and `check_version`. */
  function Checked(s: Site, user: User, pk: nat, expected: nat, status: Status): Option<Failure>
  {
    if pk >= |s.revisions| || !Owns(s, user, s.revisions[pk].corporation) then Some(NotFound)
    else if s.corporations[s.revisions[pk].corporation].working != Some(pk) then Some(Conflict)
    else if s.revisions[pk].version != expected || s.revisions[pk].status != status then Some(Conflict)
    else None
  }

  function Updated(s: Site, pk: nat, status: Status, content: Content): Site
    requires pk < |s.revisions|
  {
    var revision := s.revisions[pk];
    s.(revisions := s.revisions[pk := revision.(status := status, content := content, version := revision.version + 1)])
  }

  /** `RevisionEdit.patch`. */
  function Edited(s: Site, a: Action): Result<Site, Failure>
    requires a.Edit?
  {
    var failure := Checked(s, a.user, a.revision, a.expected, Draft);
    if failure.Some? then Err(failure.value)
    else if a.edited.None? then Err(Invalid)
    else Ok(Updated(s, a.revision, Draft, a.edited.value))
  }

  /** `RevisionTransition.post`. */
  function Moved(s: Site, a: Action): Result<Site, Failure>
    requires a.Submit? || a.Withdraw?
  {
    var failure := Checked(s, a.user, a.revision, a.expected, if a.Submit? then Draft else Pending);
    if failure.Some? then Err(failure.value)
    else
      var content := s.revisions[a.revision].content;
      if a.Submit? && !Complete(content) then Err(Invalid)
      else Ok(Updated(s, a.revision, if a.Submit? then Pending else Withdrawn, content))
  }

  /** `Decision.post` for a claim. */
  function DecidedClaim(s: Site, a: Action): Result<Site, Failure>
    requires a.DecideClaim?
  {
    if a.claim >= |s.claims| || s.claims[a.claim].corporation >= |s.corporations| then Err(NotFound)
    else
      var claim := s.claims[a.claim];
      var corporation := s.corporations[claim.corporation];
      if claim.status != ClaimPending then Err(Conflict)
      else if !a.approve then Ok(s.(claims := s.claims[a.claim := claim.(status := ClaimRejected)]))
      else if corporation.owner.Some? || claim.key != corporation.key then Err(Conflict)
      else
        Ok(s.(claims := s.claims[a.claim := claim.(status := ClaimApproved)],
              corporations := s.corporations[claim.corporation := corporation.(owner := Some(claim.applicant))]))
  }

  /** `Decision.post` for a revision. */
  function DecidedRevision(s: Site, a: Action): Result<Site, Failure>
    requires a.DecideRevision?
  {
    if a.revision >= |s.revisions| || s.revisions[a.revision].corporation >= |s.corporations| then Err(NotFound)
    else
      var revision := s.revisions[a.revision];
      var corporation := s.corporations[revision.corporation];
      if revision.status != Pending || corporation.working != Some(a.revision) then Err(Conflict)
      else
        var t := Updated(s, a.revision, if a.approve then Approved else Rejected, revision.content);
        Ok(if a.approve then
             t.(corporations := s.corporations[revision.corporation := corporation.(published := Some(a.revision))])
           else t)
  }

  /** `Visibility.post`. */
  function SetVisible(s: Site, a: Action): Result<Site, Failure>
    requires a.SetListed?
  {
    if a.corporation >= |s.corporations| then Err(NotFound)
    else Ok(s.(corporations := s.corporations[a.corporation := s.corporations[a.corporation].(listed := a.listed)]))
  }

  function Handle(s: Site, a: Action): Result<Site, Failure>
  {
    match a
    case PostClaim(_, _, _, _, _) => PostedClaim(s, a)
    case PostDraft(_, _, _, _) => PostedDraft(s, a)
    case Edit(_, _, _, _) => Edited(s, a)
    case Submit(_, _, _) => Moved(s, a)
    case Withdraw(_, _, _) => Moved(s, a)
    case DecideClaim(_, _) => DecidedClaim(s, a)
    case DecideRevision(_, _) => DecidedRevision(s, a)
    case SetListed(_, _) => SetVisible(s, a)
  }

  /** A failed request changes nothing. */
  function After(s: Site, a: Action): Site
  {
    var r := Handle(s, a);
    if r.Ok? then r.value else s
  }

  // ----- What every request keeps -----

  predicate Open(status: Status)
  {
    status == Draft || status == Pending
  }

  ghost predicate CorporationFits(s: Site, c: nat)
    requires c < |s.corporations|
  {
    var corporation := s.corporations[c];
    && (corporation.working.Some? ==>
         corporation.working.value < |s.revisions| && s.revisions[corporation.working.value].corporation == c)
    && (corporation.published.Some? ==>
         && corporation.published.value < |s.revisions| && s.revisions[corporation.published.value].corporation == c
         && s.revisions[corporation.published.value].status == Approved)
    && (corporation.owner.Some? ==> exists i :: ApprovedFor(s, i, c))
  }

  predicate ApprovedFor(s: Site, i: nat, c: nat)
  {
    i < |s.claims| && s.claims[i].status == ClaimApproved && s.claims[i].corporation == c
  }

  ghost predicate RevisionFits(s: Site, r: nat)
    requires r < |s.revisions|
  {
    var revision := s.revisions[r];
    && revision.corporation < |s.corporations|
    && s.corporations[revision.corporation].owner == Some(revision.author)
    && (Open(revision.status) ==> s.corporations[revision.corporation].working == Some(r))
  }

  ghost predicate ClaimFits(s: Site, i: nat)
    requires i < |s.claims|
  {
    var claim := s.claims[i];
    && claim.corporation < |s.corporations| && claim.key == s.corporations[claim.corporation].key
    && (claim.status == ClaimApproved ==> s.corporations[claim.corporation].owner == Some(claim.applicant))
  }

  ghost predicate ClaimsUnique(claims: seq<Claim>)
  {
    forall i, j :: 0 <= i < j < |claims| && claims[i].corporation == claims[j].corporation ==>
      && !(claims[i].status == ClaimApproved && claims[j].status == ClaimApproved)
      && !(claims[i].status == ClaimPending && claims[j].status == ClaimPending
          && claims[i].applicant == claims[j].applicant)
  }

  ghost predicate RequestFits(s: Site, i: nat)
    requires i < |s.requests|
  {
    var request := s.requests[i];
    && request.revision < |s.revisions| && s.revisions[request.revision].corporation == request.corporation
    && s.revisions[request.revision].author == request.author
  }

  /** No user has used a request ID twice. */
  ghost predicate RequestsUnique(claims: seq<Claim>, requests: seq<DraftRequest>)
  {
    && (forall i, j :: 0 <= i < j < |claims| ==>
          claims[i].applicant != claims[j].applicant || claims[i].requestId != claims[j].requestId)
    && (forall i, j :: 0 <= i < j < |requests| ==>
          requests[i].author != requests[j].author || requests[i].requestId != requests[j].requestId)
  }

  ghost predicate Inv(s: Site)
  {
    && (forall c :: 0 <= c < |s.corporations| ==> CorporationFits(s, c))
    && (forall r :: 0 <= r < |s.revisions| ==> RevisionFits(s, r))
    && (forall i :: 0 <= i < |s.claims| ==> ClaimFits(s, i))
    && ClaimsUnique(s.claims)
    && (forall i :: 0 <= i < |s.requests| ==> RequestFits(s, i))
    && RequestsUnique(s.claims, s.requests)
  }

  // ----- What a row may become -----

  /** Rows are never deleted. A corporation keeps its owner and goes on being published. */
  ghost predicate CorporationEvolves(a: Corporation, b: Corporation)
  {
    && b.key == a.key && (a.owner.Some? ==> b.owner == a.owner) && (a.published.Some? ==> b.published.Some?)
    && (a.working.Some? ==> b.working.Some?)
  }

  /** A revision is only edited as a draft, only leaves a state forwards, and every change
      gives it a new version.
    */
  ghost predicate RevisionEvolves(a: Revision, b: Revision)
  {
    && b.corporation == a.corporation && b.author == a.author
    && a.version <= b.version && (a.version == b.version ==> a == b)
    && (a.status != Draft ==> b.content == a.content && b.status != Draft)
    && (!Open(a.status) ==> b == a)
  }

  ghost predicate ClaimEvolves(a: Claim, b: Claim)
  {
    b.(status := a.status) == a && (a.status != ClaimPending ==> b == a)
  }

  ghost predicate Evolves(s: Site, t: Site)
  {
    && |s.corporations| <= |t.corporations| && |s.revisions| <= |t.revisions| && |s.claims| <= |t.claims|
    && (forall c :: 0 <= c < |s.corporations| ==> CorporationEvolves(s.corporations[c], t.corporations[c]))
    && (forall r :: 0 <= r < |s.revisions| ==> RevisionEvolves(s.revisions[r], t.revisions[r]))
    && (forall i :: 0 <= i < |s.claims| ==> ClaimEvolves(s.claims[i], t.claims[i]))
    && s.requests <= t.requests
  }

  lemma EvolvesTransitively(s: Site, t: Site, u: Site)
    requires Evolves(s, t) && Evolves(t, u)
    ensures Evolves(s, u)
  {
    forall c | 0 <= c < |s.corporations|
      ensures CorporationEvolves(s.corporations[c], u.corporations[c])
    {
      assert CorporationEvolves(t.corporations[c], u.corporations[c]);
    }
    forall r | 0 <= r < |s.revisions|
      ensures RevisionEvolves(s.revisions[r], u.revisions[r])
    {
      assert RevisionEvolves(t.revisions[r], u.revisions[r]);
    }
    forall i | 0 <= i < |s.claims|
      ensures ClaimEvolves(s.claims[i], u.claims[i])
    {
      assert ClaimEvolves(t.claims[i], u.claims[i]);
    }
  }

  /** A change of an open revision that leaves the published ones alone. */
  lemma UpdatedKeeps(s: Site, pk: nat, status: Status, content: Content)
    requires Inv(s) && pk < |s.revisions| && Open(s.revisions[pk].status)
    requires s.revisions[pk].status == Pending ==> status != Draft && content == s.revisions[pk].content
    ensures Inv(Updated(s, pk, status, content)) && Evolves(s, Updated(s, pk, status, content))
  {
    var t := Updated(s, pk, status, content);
    assert RevisionFits(s, pk);
    forall c | 0 <= c < |t.corporations|
      ensures CorporationFits(t, c)
    {
      assert CorporationFits(s, c);
      if t.corporations[c].owner.Some? {
        var i :| ApprovedFor(s, i, c);
        assert ApprovedFor(t, i, c);
      }
    }
    forall r | 0 <= r < |t.revisions|
      ensures RevisionFits(t, r)
    {
      assert RevisionFits(s, r);
    }
    assert forall i :: 0 <= i < |t.claims| ==> ClaimFits(s, i) ==> ClaimFits(t, i);
    assert forall i :: 0 <= i < |t.requests| ==> RequestFits(s, i) ==> RequestFits(t, i);
  }

  /** A change of one corporation that keeps its owner. */
  lemma CorporationKeeps(s: Site, c: nat, corporation: Corporation)
    requires Inv(s) && c < |s.corporations|
    requires corporation.(published := s.corporations[c].published, listed := s.corporations[c].listed)
             == s.corporations[c]
    requires corporation.published != s.corporations[c].published ==>
      && corporation.published.Some? && corporation.published.value < |s.revisions|
      && s.revisions[corporation.published.value].corporation == c
      && s.revisions[corporation.published.value].status == Approved
    ensures var t := s.(corporations := s.corporations[c := corporation]); Inv(t) && Evolves(s, t)
  {
    var t := s.(corporations := s.corporations[c := corporation]);
    forall d | 0 <= d < |t.corporations|
      ensures CorporationFits(t, d)
    {
      assert CorporationFits(s, d);
      if t.corporations[d].owner.Some? {
        var i :| ApprovedFor(s, i, d);
        assert ApprovedFor(t, i, d);
      }
    }
    assert forall r :: 0 <= r < |t.revisions| ==> RevisionFits(s, r) ==> RevisionFits(t, r);
    assert forall i :: 0 <= i < |t.claims| ==> ClaimFits(s, i) ==> ClaimFits(t, i);
    assert forall i :: 0 <= i < |t.requests| ==> RequestFits(s, i) ==> RequestFits(t, i);
  }

  lemma NewCorporationKeeps(s: Site, key: int)
    requires Inv(s)
    ensures var t := s.(corporations := s.corporations + [Corporation(key, None, None, None, true)]);
            Inv(t) && Evolves(s, t)
  {
    var t := s.(corporations := s.corporations + [Corporation(key, None, None, None, true)]);
    forall c | 0 <= c < |t.corporations|
      ensures CorporationFits(t, c)
    {
      if c < |s.corporations| {
        assert CorporationFits(s, c);
        if t.corporations[c].owner.Some? {
          var i :| ApprovedFor(s, i, c);
          assert ApprovedFor(t, i, c);
        }
      }
    }
    assert forall r :: 0 <= r < |t.revisions| ==> RevisionFits(s, r) ==> RevisionFits(t, r);
    assert forall i :: 0 <= i < |t.claims| ==> ClaimFits(s, i) ==> ClaimFits(t, i);
    assert forall i :: 0 <= i < |t.requests| ==> RequestFits(s, i) ==> RequestFits(t, i);
  }

  lemma NewClaimKeeps(s: Site, claim: Claim)
    requires Inv(s) && claim.corporation < |s.corporations| && claim.status == ClaimPending
    requires claim.key == s.corporations[claim.corporation].key
    requires !HasPendingClaim(s, claim.corporation, claim.applicant)
    requires FindClaim(s.claims, claim.applicant, claim.requestId) == |s.claims|
    ensures var t := s.(claims := s.claims + [claim]); Inv(t) && Evolves(s, t)
  {
    var t := s.(claims := s.claims + [claim]);
    forall c | 0 <= c < |t.corporations|
      ensures CorporationFits(t, c)
    {
      assert CorporationFits(s, c);
      if t.corporations[c].owner.Some? {
        var i :| ApprovedFor(s, i, c);
        assert ApprovedFor(t, i, c);
      }
    }
    assert forall r :: 0 <= r < |t.revisions| ==> RevisionFits(s, r) ==> RevisionFits(t, r);
    forall i | 0 <= i < |t.claims|
      ensures ClaimFits(t, i)
    {
      assert i < |s.claims| ==> ClaimFits(s, i);
    }
    assert forall i :: 0 <= i < |t.requests| ==> RequestFits(s, i) ==> RequestFits(t, i);
  }

  lemma PostedClaimKeeps(s: Site, a: Action)
    requires Inv(s) && a.PostClaim? && PostedClaim(s, a).Ok?
    ensures Inv(PostedClaim(s, a).value) && Evolves(s, PostedClaim(s, a).value)
  {
    hide Inv, Evolves, HasPendingClaim;
    if FindClaim(s.claims, a.user, a.requestId) < |s.claims| {
      EvolvesReflexively(s);
    } else {
      var target := ClaimTarget(s, a.target).value;
      var t, c := target.0, target.1;
      if t != s {
        NewCorporationKeeps(s, a.target.key);
      } else {
        EvolvesReflexively(s);
      }
      var claim := Claim(c, a.user, a.requestId, a.target, a.text, t.corporations[c].key, ClaimPending);
      NewClaimKeeps(t, claim);
      EvolvesTransitively(s, t, t.(claims := t.claims + [claim]));
    }
  }

  lemma EvolvesReflexively(s: Site)
    ensures Evolves(s, s)
  {
  }

  lemma NewRequestKeeps(s: Site, request: DraftRequest)
    requires Inv(s) && request.revision < |s.revisions|
             && s.revisions[request.revision].corporation == request.corporation
    requires s.revisions[request.revision].author == request.author
    requires FindRequest(s.requests, request.author, request.requestId) == |s.requests|
    ensures var t := s.(requests := s.requests + [request]); Inv(t) && Evolves(s, t)
  {
    var t := s.(requests := s.requests + [request]);
    forall c | 0 <= c < |t.corporations|
      ensures CorporationFits(t, c)
    {
      assert CorporationFits(s, c);
      if t.corporations[c].owner.Some? {
        var i :| ApprovedFor(s, i, c);
        assert ApprovedFor(t, i, c);
      }
    }
    assert forall r :: 0 <= r < |t.revisions| ==> RevisionFits(s, r) ==> RevisionFits(t, r);
    assert forall i :: 0 <= i < |t.claims| ==> ClaimFits(s, i) ==> ClaimFits(t, i);
    forall i | 0 <= i < |t.requests|
      ensures RequestFits(t, i)
    {
      assert i < |s.requests| ==> RequestFits(s, i);
    }
  }

  /** A new draft takes the place of a closed working revision. */
  lemma NewRevisionKeeps(s: Site, revision: Revision)
    requires Inv(s) && revision.corporation < |s.corporations| && revision.status == Draft
    requires s.corporations[revision.corporation].owner == Some(revision.author)
    requires var current := Lookup(s, s.corporations[revision.corporation].working);
             current.Some? ==> !Open(current.value.status)
    ensures var c := revision.corporation;
            var t := s.(revisions := s.revisions + [revision],
                        corporations := s.corporations[c := s.corporations[c].(working := Some(|s.revisions|))]);
            Inv(t) && Evolves(s, t)
  {
    var c := revision.corporation;
    var t := s.(revisions := s.revisions + [revision],
                corporations := s.corporations[c := s.corporations[c].(working := Some(|s.revisions|))]);
    forall d | 0 <= d < |t.corporations|
      ensures CorporationFits(t, d)
    {
      assert CorporationFits(s, d);
      if t.corporations[d].owner.Some? {
        var i :| ApprovedFor(s, i, d);
        assert ApprovedFor(t, i, d);
      }
    }
    forall r | 0 <= r < |t.revisions|
      ensures RevisionFits(t, r)
    {
      if r < |s.revisions| {
        assert RevisionFits(s, r);
        assert CorporationFits(s, c);
      }
    }
    assert forall i :: 0 <= i < |t.claims| ==> ClaimFits(s, i) ==> ClaimFits(t, i);
    assert forall i :: 0 <= i < |t.requests| ==> RequestFits(s, i) ==> RequestFits(t, i);
  }

  lemma PostedDraftKeeps(s: Site, a: Action)
    requires Inv(s) && a.PostDraft? && PostedDraft(s, a).Ok?
    ensures Inv(PostedDraft(s, a).value) && Evolves(s, PostedDraft(s, a).value)
  {
    hide Evolves;
    EvolvesReflexively(s);
    if FindRequest(s.requests, a.user, a.requestId) == |s.requests| {
      var corporation := s.corporations[a.corporation];
      var current := Lookup(s, corporation.working);
      assert CorporationFits(s, a.corporation);
      if current.Some? && current.value.status == Draft {
        assert RevisionFits(s, corporation.working.value);
        NewRequestKeeps(s, DraftRequest(a.user, a.requestId, a.corporation, corporation.working.value));
      } else {
        hide Inv;
        var source := if current.Some? then current else Lookup(s, corporation.published);
        var content := if source.Some? then source.value.content else DEFAULT_CONTENT;
        var revision := Revision(a.corporation, a.user, 1, Draft, content);
        NewRevisionKeeps(s, revision);
        var t := s.(revisions := s.revisions + [revision],
                    corporations := s.corporations[a.corporation := corporation.(working := Some(|s.revisions|))]);
        var request := DraftRequest(a.user, a.requestId, a.corporation, |s.revisions|);
        NewRequestKeeps(t, request);
        EvolvesTransitively(s, t, t.(requests := t.requests + [request]));
      }
    }
  }

  lemma ClaimDecisionKeeps(s: Site, a: Action)
    requires Inv(s) && a.DecideClaim? && DecidedClaim(s, a).Ok?
    ensures Inv(DecidedClaim(s, a).value) && Evolves(s, DecidedClaim(s, a).value)
  {
    var t := DecidedClaim(s, a).value;
    var claim := s.claims[a.claim];
    forall c | 0 <= c < |t.corporations|
      ensures CorporationFits(t, c)
    {
      assert CorporationFits(s, c);
      if c == claim.corporation && a.approve {
        assert ApprovedFor(t, a.claim, c);
      } else if t.corporations[c].owner.Some? {
        var i :| ApprovedFor(s, i, c);
        assert ApprovedFor(t, i, c);
      }
    }
    forall r | 0 <= r < |t.revisions|
      ensures RevisionFits(t, r)
    {
      assert RevisionFits(s, r);
    }
    forall i | 0 <= i < |t.claims|
      ensures ClaimFits(t, i)
    {
      assert ClaimFits(s, i);
    }
    OnlyOneApproval(s, a);
    assert forall i :: 0 <= i < |t.requests| ==> RequestFits(s, i) ==> RequestFits(t, i);
  }

  /** While a corporation has no owner, none of its claims has been approved. */
  lemma OnlyOneApproval(s: Site, a: Action)
    requires Inv(s) && a.DecideClaim? && DecidedClaim(s, a).Ok?
    ensures ClaimsUnique(DecidedClaim(s, a).value.claims)
  {
    if a.approve {
      forall i | 0 <= i < |s.claims| && s.claims[i].corporation == s.claims[a.claim].corporation
        ensures s.claims[i].status != ClaimApproved
      {
        assert ClaimFits(s, i);
      }
    }
  }

  lemma RevisionDecisionKeeps(s: Site, a: Action)
    requires Inv(s) && a.DecideRevision? && DecidedRevision(s, a).Ok?
    ensures Inv(DecidedRevision(s, a).value) && Evolves(s, DecidedRevision(s, a).value)
  {
    hide Inv, Evolves;
    var revision := s.revisions[a.revision];
    var t := Updated(s, a.revision, if a.approve then Approved else Rejected, revision.content);
    UpdatedKeeps(s, a.revision, if a.approve then Approved else Rejected, revision.content);
    if a.approve {
      var corporation := s.corporations[revision.corporation].(published := Some(a.revision));
      CorporationKeeps(t, revision.corporation, corporation);
      EvolvesTransitively(s, t, DecidedRevision(s, a).value);
    }
  }

  /** Every request keeps the invariant and lets rows change only as they may. */
  lemma RequestKeeps(s: Site, a: Action)
    requires Inv(s)
    ensures Inv(After(s, a)) && Evolves(s, After(s, a))
  {
    hide Inv, Evolves, PostedClaim, PostedDraft, DecidedClaim, DecidedRevision;
    EvolvesReflexively(s);
    if Handle(s, a).Ok? {
      match a
      case PostClaim(_, _, _, _, _) => PostedClaimKeeps(s, a);
      case PostDraft(_, _, _, _) => PostedDraftKeeps(s, a);
      case Edit(_, pk, _, _) => UpdatedKeeps(s, pk, Draft, a.edited.value);
      case Submit(_, pk, _) => UpdatedKeeps(s, pk, Pending, s.revisions[pk].content);
      case Withdraw(_, pk, _) => UpdatedKeeps(s, pk, Withdrawn, s.revisions[pk].content);
      case DecideClaim(_, _) => ClaimDecisionKeeps(s, a);
      case DecideRevision(_, _) => RevisionDecisionKeeps(s, a);
      case SetListed(c, listed) => CorporationKeeps(s, c, s.corporations[c].(listed := listed));
    }
  }
}
