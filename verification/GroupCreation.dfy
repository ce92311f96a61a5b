/**
  Creating a group (src/groups_v2/operations.rs:1064): one pass over the candidates fills the list
  of members and the list of invitations, and the group decoder reads the result back.
 */
module GroupCreation {
  import opened Prelude
  import opened GroupOperations
  import opened GroupRoundTrip

  datatype Candidate = Candidate(serviceId: ServiceId, credential: Option<Credential>)

  datatype AccessControl = AccessControl(
    attributes: AccessRequired, members: AccessRequired, addFromInviteLink: AccessRequired, memberLabel: AccessRequired)

  datatype EncryptedAccess = EncryptedAccess(attributes: int, members: int, addFromInviteLink: int, memberLabel: int)

  datatype EncryptedGroup = EncryptedGroup(
    publicKey: Bytes, title: Bytes, avatarUrl: string, timer: Bytes, accessControl: Option<EncryptedAccess>, version: nat,
    members: seq<EncryptedMember>, pending: seq<EncryptedPending>, requesting: seq<EncryptedRequesting>,
    inviteLinkPassword: Bytes, description: Bytes, announcementsOnly: bool, banned: seq<EncryptedBanned>, terminated: bool)

  datatype Group = Group(
    title: string, avatar: string, timer: Option<nat>, accessControl: Option<AccessControl>, version: nat,
    members: seq<Member>, pending: seq<PendingMember>, requesting: seq<RequestingMember>,
    inviteLinkPassword: Bytes, description: Option<string>, announcementsOnly: bool,
    banned: seq<(ServiceId, nat)>, terminated: bool)

  /** What the caller asks for. `draw` is the randomness, indexed by the candidate it is drawn for. */
  datatype Request = Request(
    title: string, description: Option<string>, timer: Option<nat>, access: Option<AccessControl>,
    creator: Credential, candidates: seq<Candidate>, avatarUrl: string,
    creatorDraw: Bytes, draw: nat -> Bytes, titleDraw: Bytes, timerDraw: Bytes, descriptionDraw: Bytes)

  // -- encoding ---------------------------------------------------------------------

  function EncryptAccess(ac: AccessControl): EncryptedAccess {
    EncryptedAccess(AccessNumber(ac.attributes), AccessNumber(ac.members),
                    AccessNumber(ac.addFromInviteLink), AccessNumber(ac.memberLabel))
  }

  /** Candidate `i` is not the creator and comes with a credential. */
  predicate Enters(q: Request, i: nat) {
    i < |q.candidates| && q.candidates[i].serviceId != Aci(q.creator.aci) && q.candidates[i].credential.Some?
  }

  /** Candidate `i` is not the creator and comes without one. */
  predicate IsInvited(q: Request, i: nat) {
    i < |q.candidates| && q.candidates[i].serviceId != Aci(q.creator.aci) && q.candidates[i].credential.None?
  }

  /** `base` and then what each of the first `n` positions adds. */
  function Fold<T>(base: seq<T>, adds: nat -> seq<T>, n: nat): seq<T> {
    if n == 0 then base else Fold(base, adds, n - 1) + adds(n - 1)
  }

  lemma FoldNext<T>(base: seq<T>, adds: nat -> seq<T>, n: nat)
    ensures Fold(base, adds, n + 1) == Fold(base, adds, n) + adds(n)
    ensures adds(n) == [] ==> Fold(base, adds, n + 1) == Fold(base, adds, n)
  {
    assert Fold(base, adds, n) + [] == Fold(base, adds, n);
  }

  /** The member entry candidate `i` adds, if any. */
  function MemberEntry(z: Zk, q: Request): nat -> seq<EncryptedMember> {
    (i: nat) => if Enters(q, i) then [PlainMember([], [], z.present(q.candidates[i].credential.value, q.draw(i)), Default)] else []
  }

  /** The invitation candidate `i` adds, if any. */
  function PendingEntry(z: Zk, q: Request): nat -> seq<EncryptedPending> {
    (i: nat) =>
      if IsInvited(q, i)
      then [EncryptedPending(Some(PlainMember(z.encryptServiceId(q.candidates[i].serviceId), [], [], Default)),
                             z.encryptServiceId(Aci(q.creator.aci)), 0)]
      else []
  }

  function CreatorEntry(z: Zk, q: Request): EncryptedMember {
    PlainMember([], [], z.present(q.creator, q.creatorDraw), Administrator)
  }

  function TimerBytes(z: Zk, q: Request): Bytes {
    if q.timer.Some? then EncryptBlob(z, Timer(q.timer.value), q.timerDraw) else []
  }

  function DescriptionBytes(z: Zk, q: Request): Bytes {
    if q.description.Some? then EncryptBlob(z, DescriptionText(q.description.value), q.descriptionDraw) else []
  }

  /** The encrypted group the request amounts to. */
  function CreatedGroup(z: Zk, q: Request): EncryptedGroup {
    EncryptedGroup(
      z.publicParams,
      EncryptBlob(z, Title(q.title), q.titleDraw),
      q.avatarUrl,
      TimerBytes(z, q),
      if q.access.Some? then Some(EncryptAccess(q.access.value)) else None,
      0, Fold([CreatorEntry(z, q)], MemberEntry(z, q), |q.candidates|), Fold([], PendingEntry(z, q), |q.candidates|), [], [],
      DescriptionBytes(z, q),
      false, [], false)
  }

  /** What candidate `i` adds to the two lists. */
  lemma NextEntries(z: Zk, q: Request, i: nat, members: seq<EncryptedMember>, pending: seq<EncryptedPending>)
    requires i < |q.candidates|
    requires members == Fold([CreatorEntry(z, q)], MemberEntry(z, q), i) && pending == Fold([], PendingEntry(z, q), i)
    ensures var c := q.candidates[i];
            var members', pending' := Fold([CreatorEntry(z, q)], MemberEntry(z, q), i + 1), Fold([], PendingEntry(z, q), i + 1);
            if c.serviceId == Aci(q.creator.aci) then members' == members && pending' == pending
            else
              match c.credential
              case Some(credential) =>
                members' == members + [PlainMember([], [], z.present(credential, q.draw(i)), Default)] && pending' == pending
              case None =>
                members' == members
                && pending' == pending
                   + [EncryptedPending(Some(PlainMember(z.encryptServiceId(c.serviceId), [], [], Default)),
                                       z.encryptServiceId(Aci(q.creator.aci)), 0)]
  {
    FoldNext([CreatorEntry(z, q)], MemberEntry(z, q), i);
    FoldNext([], PendingEntry(z, q), i);
    if !Enters(q, i) {
      assert MemberEntry(z, q)(i) == [];
    }
    if !IsInvited(q, i) {
      assert PendingEntry(z, q)(i) == [];
    }
  }

  method EncryptGroupWithCredentials(z: Zk, q: Request) returns (g: EncryptedGroup)
    requires Lawful(z)
    ensures g == CreatedGroup(z, q)
    ensures DecryptGroup(z, g) == Ok(Meant(q))
  {
    var members := [PlainMember([], [], z.present(q.creator, q.creatorDraw), Administrator)];
    var pending: seq<EncryptedPending> := [];
    for i := 0 to |q.candidates|
      invariant members == Fold([CreatorEntry(z, q)], MemberEntry(z, q), i) && pending == Fold([], PendingEntry(z, q), i)
    {
      var candidate := q.candidates[i];
      NextEntries(z, q, i, members, pending);
      if candidate.serviceId == Aci(q.creator.aci) {
        continue;
      }
      match candidate.credential {
        case Some(credential) =>
          members := members + [PlainMember([], [], z.present(credential, q.draw(i)), Default)];
        case None =>
          var userId := z.encryptServiceId(candidate.serviceId);
          pending := pending
            + [EncryptedPending(Some(PlainMember(userId, [], [], Default)), z.encryptServiceId(Aci(q.creator.aci)), 0)];
      }
    }
    var title := EncryptBlob(z, Title(q.title), q.titleDraw);
    var access := if q.access.Some? then Some(EncryptAccess(q.access.value)) else None;
    g := EncryptedGroup(z.publicParams, title, q.avatarUrl, TimerBytes(z, q), access, 0, members, pending, [], [],
                        DescriptionBytes(z, q), false, [], false);
    CreatedGroupDecodes(z, q);
  }

  // -- decoding ---------------------------------------------------------------------

  function DecryptAccess(ac: EncryptedAccess): Result<AccessControl, GroupError> {
    var attributes :- AccessOf(ac.attributes);
    var members :- AccessOf(ac.members);
    var addFromInviteLink :- AccessOf(ac.addFromInviteLink);
    var memberLabel :- AccessOf(ac.memberLabel);
    Ok(AccessControl(attributes, members, addFromInviteLink, memberLabel))
  }

  function DecryptBanned(z: Zk, m: EncryptedBanned): Result<(ServiceId, nat), GroupError> {
    var user :- z.decryptServiceId(m.userId);
    Ok((user, m.timestamp))
  }

  /** `map` and `collect`: the first failure, or every value in order. */
  function TryMap<A, B, E>(f: A -> Result<B, E>, xs: seq<A>): Result<seq<B>, E> {
    if xs == [] then Ok([])
    else
      var first :- f(xs[0]);
      var rest :- TryMap(f, xs[1..]);
      Ok([first] + rest)
  }

  function MemberDecryptor(z: Zk): EncryptedMember -> Result<Member, GroupError> {
    (m: EncryptedMember) => DecryptMember(z, m)
  }

  function PendingDecryptor(z: Zk): EncryptedPending -> Result<PendingMember, GroupError> {
    (m: EncryptedPending) => DecryptPending(z, m)
  }

  function DecryptAccessOption(ac: Option<EncryptedAccess>): Result<Option<AccessControl>, GroupError> {
    if ac.None? then Ok(None) else (var a :- DecryptAccess(ac.value); Ok(Some(a)))
  }

  function DecryptGroup(z: Zk, g: EncryptedGroup): Result<Group, GroupError> {
    var members :- TryMap(MemberDecryptor(z), g.members);
    var pending :- TryMap(PendingDecryptor(z), g.pending);
    var requesting :- TryMap((m: EncryptedRequesting) => DecryptRequesting(z, m), g.requesting);
    var banned :- TryMap((m: EncryptedBanned) => DecryptBanned(z, m), g.banned);
    var access :- DecryptAccessOption(g.accessControl);
    Ok(Group(DecryptTitle(z, g.title), g.avatarUrl, DecryptTimer(z, g.timer), access, g.version, members, pending,
             requesting, g.inviteLinkPassword, DecryptDescription(z, g.description), g.announcementsOnly, banned,
             g.terminated))
  }

  // -- what was asked for -----------------------------------------------------------

  function CreatorMember(q: Request): Member {
    Member(q.creator.aci, Administrator, q.creator.profileKey, 0, None, None)
  }

  function Join(q: Request): nat -> seq<Member> {
    (i: nat) =>
      if Enters(q, i)
      then [Member(EnteredAci(q, i), Default, q.candidates[i].credential.value.profileKey, 0, None, None)] else []
  }

  /** The ACI under which candidate `i` enters: its credential's. */
  function EnteredAci(q: Request, i: nat): nat
    requires Enters(q, i)
  {
    q.candidates[i].credential.value.aci
  }

  function Invite(q: Request): nat -> seq<PendingMember> {
    (i: nat) => if IsInvited(q, i) then [PendingMember(q.candidates[i].serviceId, Default, q.creator.aci, 0)] else []
  }

  /** The creator as the one administrator, a member per credential, an invitation per bare id, no empty description. */
  function Meant(q: Request): Group {
    Group(q.title, q.avatarUrl, q.timer, q.access, 0,
          Fold([CreatorMember(q)], Join(q), |q.candidates|), Fold([], Invite(q), |q.candidates|), [], [],
          NonEmpty(q.description.GetOr("")), false, [], false)
  }

  // -- proofs -----------------------------------------------------------------------

  lemma {:induction false} TryMapConcat<A, B, E>(f: A -> Result<B, E>, xs: seq<A>, ys: seq<A>)
    requires TryMap(f, xs).Ok? && TryMap(f, ys).Ok?
    ensures TryMap(f, xs + ys) == Ok(TryMap(f, xs).value + TryMap(f, ys).value)
  {
    if xs == [] {
      assert xs + ys == ys && [] + TryMap(f, ys).value == TryMap(f, ys).value;
    } else {
      TryMapConcat(f, xs[1..], ys);
      assert (xs + ys)[0] == xs[0] && (xs + ys)[1..] == xs[1..] + ys;
      var first, rest, last := f(xs[0]).value, TryMap(f, xs[1..]).value, TryMap(f, ys).value;
      assert [first] + (rest + last) == [first] + rest + last;
    }
  }

  lemma TryMapOne<A, B, E>(f: A -> Result<B, E>, x: A)
    requires f(x).Ok?
    ensures TryMap(f, [x]) == Ok([f(x).value])
  {
    assert [x][1..] == [];
    assert [f(x).value] + [] == [f(x).value];
  }

  lemma PresentedMember(z: Zk, c: Credential, rand: Bytes, role: Role)
    requires Lawful(z)
    ensures DecryptMember(z, PlainMember([], [], z.present(c, rand), role)) == Ok(Member(c.aci, role, c.profileKey, 0, None, None))
  {
    PresentationRoundTrip(z, c, rand, [], []);
    NumbersRoundTrip(role, Any);
  }

  lemma InvitationDecodes(z: Zk, invitee: ServiceId, inviter: nat)
    requires Lawful(z)
    ensures DecryptPending(z, EncryptedPending(Some(PlainMember(z.encryptServiceId(invitee), [], [], Default)),
                                               z.encryptServiceId(Aci(inviter)), 0))
            == Ok(PendingMember(invitee, Default, inviter, 0))
  {
  }

  lemma EntriesDecode(z: Zk, q: Request, i: nat)
    requires Lawful(z)
    ensures TryMap(MemberDecryptor(z), MemberEntry(z, q)(i)) == Ok(Join(q)(i))
    ensures TryMap(PendingDecryptor(z), PendingEntry(z, q)(i)) == Ok(Invite(q)(i))
  {
    if Enters(q, i) {
      PresentedMember(z, q.candidates[i].credential.value, q.draw(i), Default);
      TryMapOne(MemberDecryptor(z), MemberEntry(z, q)(i)[0]);
    } else if IsInvited(q, i) {
      InvitationDecodes(z, q.candidates[i].serviceId, q.creator.aci);
      TryMapOne(PendingDecryptor(z), PendingEntry(z, q)(i)[0]);
    }
  }

  /** Decoding what was added position by position, when each addition decodes. */
  lemma {:induction false} FoldDecodes<A, B, E>(f: A -> Result<B, E>, base: seq<A>, adds: nat -> seq<A>,
                                                base': seq<B>, adds': nat -> seq<B>, n: nat)
    requires TryMap(f, base) == Ok(base') && forall i: nat :: i < n ==> TryMap(f, adds(i)) == Ok(adds'(i))
    ensures TryMap(f, Fold(base, adds, n)) == Ok(Fold(base', adds', n))
  {
    if n > 0 {
      FoldDecodes(f, base, adds, base', adds', n - 1);
      TryMapConcat(f, Fold(base, adds, n - 1), adds(n - 1));
    }
  }

  lemma MembersDecode(z: Zk, q: Request)
    requires Lawful(z)
    ensures TryMap(MemberDecryptor(z), CreatedGroup(z, q).members) == Ok(Meant(q).members)
  {
    PresentedMember(z, q.creator, q.creatorDraw, Administrator);
    TryMapOne(MemberDecryptor(z), CreatorEntry(z, q));
    forall i: nat
      ensures TryMap(MemberDecryptor(z), MemberEntry(z, q)(i)) == Ok(Join(q)(i))
    {
      EntriesDecode(z, q, i);
    }
    FoldDecodes(MemberDecryptor(z), [CreatorEntry(z, q)], MemberEntry(z, q), [CreatorMember(q)], Join(q), |q.candidates|);
  }

  lemma PendingDecode(z: Zk, q: Request)
    requires Lawful(z)
    ensures TryMap(PendingDecryptor(z), CreatedGroup(z, q).pending) == Ok(Meant(q).pending)
  {
    forall i: nat
      ensures TryMap(PendingDecryptor(z), PendingEntry(z, q)(i)) == Ok(Invite(q)(i))
    {
      EntriesDecode(z, q, i);
    }
    FoldDecodes(PendingDecryptor(z), [], PendingEntry(z, q), [], Invite(q), |q.candidates|);
  }

  lemma AccessRoundTrip(ac: AccessControl)
    ensures DecryptAccess(EncryptAccess(ac)) == Ok(ac)
  {
    NumbersRoundTrip(Default, ac.attributes);
    NumbersRoundTrip(Default, ac.members);
    NumbersRoundTrip(Default, ac.addFromInviteLink);
    NumbersRoundTrip(Default, ac.memberLabel);
  }

  /** Absent description and timer are absent on the wire, and read as None. */
  lemma AttributesDecode(z: Zk, q: Request)
    requires Lawful(z)
    ensures DecryptTitle(z, EncryptBlob(z, Title(q.title), q.titleDraw)) == q.title
    ensures DecryptTimer(z, TimerBytes(z, q)) == q.timer
    ensures DecryptDescription(z, DescriptionBytes(z, q)) == NonEmpty(q.description.GetOr(""))
    ensures DecryptAccessOption(if q.access.Some? then Some(EncryptAccess(q.access.value)) else None) == Ok(q.access)
  {
    BlobRoundTrip(z, Title(q.title), q.titleDraw);
    if q.timer.Some? {
      BlobRoundTrip(z, Timer(q.timer.value), q.timerDraw);
    }
    if q.description.Some? {
      BlobRoundTrip(z, DescriptionText(q.description.value), q.descriptionDraw);
    }
    if q.access.Some? {
      AccessRoundTrip(q.access.value);
    }
  }

  lemma GroupDecodes(z: Zk, q: Request, g: EncryptedGroup)
    requires Lawful(z)
    requires TryMap(MemberDecryptor(z), g.members).Ok? && TryMap(PendingDecryptor(z), g.pending).Ok?
    requires DecryptAccessOption(g.accessControl) == Ok(q.access)
    requires g.requesting == [] && g.banned == []
    ensures DecryptGroup(z, g)
            == Ok(Group(DecryptTitle(z, g.title), g.avatarUrl, DecryptTimer(z, g.timer), q.access, g.version,
                        TryMap(MemberDecryptor(z), g.members).value, TryMap(PendingDecryptor(z), g.pending).value,
                        [], g.inviteLinkPassword, DecryptDescription(z, g.description), g.announcementsOnly, [],
                        g.terminated))
  {
  }

  /** The decoder reads the created group as what was asked for. */
  lemma CreatedGroupDecodes(z: Zk, q: Request)
    requires Lawful(z)
    ensures DecryptGroup(z, CreatedGroup(z, q)) == Ok(Meant(q))
  {
    MembersDecode(z, q);
    PendingDecode(z, q);
    AttributesDecode(z, q);
    GroupDecodes(z, q, CreatedGroup(z, q));
  }

  /** Every attribute and presentation is made with randomness drawn for it. */
  lemma EachHasItsDraw(z: Zk, q: Request)
    ensures var g := CreatedGroup(z, q);
            && g.title == z.sealBlob(q.titleDraw, z.encodeBlob(Title(q.title)))
            && (q.timer.Some? ==> g.timer == z.sealBlob(q.timerDraw, z.encodeBlob(Timer(q.timer.value))))
            && (q.description.Some? ==>
                  g.description == z.sealBlob(q.descriptionDraw, z.encodeBlob(DescriptionText(q.description.value))))
            && |g.members| == 1 + |Entering(q)| && g.members[0].presentation == z.present(q.creator, q.creatorDraw)
            && forall k :: 0 <= k < |Entering(q)| ==>
                 var i := Entering(q)[k];
                 Enters(q, i) && g.members[1 + k].presentation == z.present(q.candidates[i].credential.value, q.draw(i))
  {
    var g := CreatedGroup(z, q);
    FoldByPosition([CreatorEntry(z, q)], MemberEntry(z, q), (i: nat) => Enters(q, i), |q.candidates|);
    assert g.members[0] == g.members[..1][0];
    forall k | 0 <= k < |Entering(q)|
      ensures Enters(q, Entering(q)[k])
      ensures g.members[1 + k].presentation == z.present(q.candidates[Entering(q)[k]].credential.value, q.draw(Entering(q)[k]))
    {
      assert MemberEntry(z, q)(Entering(q)[k]) == [g.members[1 + k]];
    }
  }

  // -- any group at all ---------------------------------------------------------------

  ghost predicate AllRead<A, B, E>(f: A -> Result<B, E>, xs: seq<A>, ys: seq<B>) {
    |ys| == |xs| && forall i :: 0 <= i < |xs| ==> f(xs[i]) == Ok(ys[i])
  }

  /** A list is read exactly if every entry of it is. */
  lemma {:induction false} TryMapIff<A, B, E>(f: A -> Result<B, E>, xs: seq<A>, ys: seq<B>)
    ensures TryMap(f, xs) == Ok(ys) <==> AllRead(f, xs, ys)
    decreases xs
  {
    if xs != [] && ys != [] {
      TryMapIff(f, xs[1..], ys[1..]);
      assert xs == [xs[0]] + xs[1..] && ys == [ys[0]] + ys[1..];
      assert AllRead(f, xs, ys) <==> f(xs[0]) == Ok(ys[0]) && AllRead(f, xs[1..], ys[1..]) by {
        assert AllRead(f, xs, ys) ==> forall i :: 0 <= i < |xs[1..]| ==> f(xs[1..][i]) == Ok(ys[1..][i]);
        if f(xs[0]) == Ok(ys[0]) && AllRead(f, xs[1..], ys[1..]) {
          forall i | 0 <= i < |xs|
            ensures f(xs[i]) == Ok(ys[i])
          {
            assert i > 0 ==> f(xs[1..][i - 1]) == Ok(ys[1..][i - 1]);
          }
        }
      }
    }
  }

  predicate InRange(ac: EncryptedAccess) {
    0 <= ac.attributes < 5 && 0 <= ac.members < 5 && 0 <= ac.addFromInviteLink < 5 && 0 <= ac.memberLabel < 5
  }

  lemma AccessIff(ac: EncryptedAccess, a: AccessControl)
    ensures DecryptAccess(ac).Ok? <==> InRange(ac)
    ensures DecryptAccess(ac) == Ok(a) <==> ac == EncryptAccess(a)
    ensures DecryptAccess(ac).Err? ==> DecryptAccess(ac) == Err(WrongEnumValue)
  {
    NumbersAreNumbers(ac.attributes, a.attributes);
    NumbersAreNumbers(ac.members, a.members);
    NumbersAreNumbers(ac.addFromInviteLink, a.addFromInviteLink);
    NumbersAreNumbers(ac.memberLabel, a.memberLabel);
  }

  lemma NumbersAreNumbers(n: int, a: AccessRequired)
    ensures AccessOf(n) == Ok(a) <==> n == AccessNumber(a)
    ensures AccessOf(n).Ok? <==> 0 <= n < 5
    ensures AccessOf(n).Err? ==> AccessOf(n) == Err(WrongEnumValue)
  {
  }

  /** A group, whoever made it, is read entry by entry in every one of its lists, and attribute by attribute. */
  lemma AnyGroupReads(z: Zk, g: EncryptedGroup, r: Group)
    ensures DecryptGroup(z, g) == Ok(r) <==>
              && AllRead(MemberDecryptor(z), g.members, r.members)
              && AllRead(PendingDecryptor(z), g.pending, r.pending)
              && AllRead((m: EncryptedRequesting) => DecryptRequesting(z, m), g.requesting, r.requesting)
              && AllRead((m: EncryptedBanned) => DecryptBanned(z, m), g.banned, r.banned)
              && (if g.accessControl.None? then r.accessControl.None?
                  else r.accessControl.Some? && g.accessControl.value == EncryptAccess(r.accessControl.value))
              && r.title == DecryptTitle(z, g.title) && r.description == DecryptDescription(z, g.description)
              && r.timer == DecryptTimer(z, g.timer) && r.avatar == g.avatarUrl && r.version == g.version
              && r.inviteLinkPassword == g.inviteLinkPassword && r.announcementsOnly == g.announcementsOnly
              && r.terminated == g.terminated
  {
    TryMapIff(MemberDecryptor(z), g.members, r.members);
    TryMapIff(PendingDecryptor(z), g.pending, r.pending);
    TryMapIff((m: EncryptedRequesting) => DecryptRequesting(z, m), g.requesting, r.requesting);
    TryMapIff((m: EncryptedBanned) => DecryptBanned(z, m), g.banned, r.banned);
    if g.accessControl.Some? && r.accessControl.Some? {
      AccessIff(g.accessControl.value, r.accessControl.value);
    }
  }

  // -- who is in it -----------------------------------------------------------------

  /** The positions with a property, in order. */
  function Positions(has: nat -> bool, n: nat): seq<nat> {
    Fold([], (i: nat) => if has(i) then [i] else [], n)
  }

  ghost predicate Ascending(positions: seq<nat>) {
    forall a, b :: 0 <= a < b < |positions| ==> positions[a] < positions[b]
  }

  lemma {:induction false} PositionsAre(has: nat -> bool, n: nat)
    ensures Ascending(Positions(has, n)) && forall i: nat :: i in Positions(has, n) <==> i < n && has(i)
  {
    if n > 0 {
      PositionsAre(has, n - 1);
      var before := Positions(has, n - 1);
      assert forall a :: 0 <= a < |before| ==> before[a] in before;
      assert Positions(has, n) == before + if has(n - 1) then [n - 1] else [];
    }
  }

  /** What is added, when at most one element is added at each of certain positions, stands in their order. */
  lemma {:induction false} FoldByPosition<T>(base: seq<T>, adds: nat -> seq<T>, has: nat -> bool, n: nat)
    requires forall i: nat :: |adds(i)| == if has(i) then 1 else 0
    ensures |Fold(base, adds, n)| == |base| + |Positions(has, n)| && Fold(base, adds, n)[..|base|] == base
    ensures forall k :: 0 <= k < |Positions(has, n)| ==>
              has(Positions(has, n)[k]) && adds(Positions(has, n)[k]) == [Fold(base, adds, n)[|base| + k]]
  {
    if n > 0 {
      FoldByPosition(base, adds, has, n - 1);
      var before := Positions(has, n - 1);
      assert Positions(has, n) == before + if has(n - 1) then [n - 1] else [];
      if has(n - 1) {
        assert adds(n - 1) == [adds(n - 1)[0]];
      } else {
        assert adds(n - 1) == [];
      }
    }
  }

  function Entering(q: Request): seq<nat> {
    Positions((i: nat) => Enters(q, i), |q.candidates|)
  }

  function Inviting(q: Request): seq<nat> {
    Positions((i: nat) => IsInvited(q, i), |q.candidates|)
  }

  /** The members after the creator are the entering candidates, and the invitations the invited ones, each in order. */
  lemma WhoIsWhere(q: Request)
    ensures Ascending(Entering(q)) && forall i: nat :: i in Entering(q) <==> Enters(q, i)
    ensures Ascending(Inviting(q)) && forall i: nat :: i in Inviting(q) <==> IsInvited(q, i)
    ensures |Meant(q).members| == 1 + |Entering(q)| && Meant(q).members[0] == CreatorMember(q)
    ensures forall k :: 0 <= k < |Entering(q)| ==>
              Enters(q, Entering(q)[k]) && [Meant(q).members[1 + k]] == Join(q)(Entering(q)[k])
    ensures |Meant(q).pending| == |Inviting(q)|
    ensures forall k :: 0 <= k < |Inviting(q)| ==>
              IsInvited(q, Inviting(q)[k]) && [Meant(q).pending[k]] == Invite(q)(Inviting(q)[k])
  {
    PositionsAre((i: nat) => Enters(q, i), |q.candidates|);
    PositionsAre((i: nat) => IsInvited(q, i), |q.candidates|);
    FoldByPosition([CreatorMember(q)], Join(q), (i: nat) => Enters(q, i), |q.candidates|);
    FoldByPosition([], Invite(q), (i: nat) => IsInvited(q, i), |q.candidates|);
    assert Meant(q).members[0] == Meant(q).members[..1][0];
  }

  /** The creator leads the group as its only administrator and is never invited, whatever the candidates. */
  lemma CreatorLeads(q: Request)
    ensures var g := Meant(q);
            && g.members != [] && g.members[0].aci == q.creator.aci && g.members[0].role == Administrator
            && (forall i :: 0 < i < |g.members| ==> g.members[i].role == Default)
            && (forall k :: 0 <= k < |g.pending| ==> g.pending[k].address != Aci(q.creator.aci))
  {
    WhoIsWhere(q);
    forall i | 0 < i < |Meant(q).members|
      ensures Meant(q).members[i].role == Default
    {
      assert [Meant(q).members[1 + (i - 1)]] == Join(q)(Entering(q)[i - 1]);
    }
    forall k | 0 <= k < |Meant(q).pending|
      ensures Meant(q).pending[k].address != Aci(q.creator.aci)
    {
      assert [Meant(q).pending[k]] == Invite(q)(Inviting(q)[k]);
    }
  }

  /** Candidate `i` enters at member position `a`. */
  ghost predicate StandsAt(q: Request, i: nat, a: nat) {
    Enters(q, i) && 0 < a < |Meant(q).members| && Meant(q).members[a].aci == EnteredAci(q, i)
  }

  lemma MemberOf(q: Request, i: nat) returns (a: nat)
    requires Enters(q, i)
    ensures StandsAt(q, i, a) && a <= |Entering(q)| && Entering(q)[a - 1] == i
  {
    WhoIsWhere(q);
    var k :| 0 <= k < |Entering(q)| && Entering(q)[k] == i;
    a := k + 1;
    assert [Meant(q).members[1 + k]] == Join(q)(i);
  }

  lemma CandidateAt(q: Request, a: nat) returns (i: nat)
    requires 0 < a < |Meant(q).members|
    ensures StandsAt(q, i, a) && a <= |Entering(q)| && Entering(q)[a - 1] == i
  {
    WhoIsWhere(q);
    i := Entering(q)[a - 1];
    assert [Meant(q).members[1 + (a - 1)]] == Join(q)(i);
  }

  /** The creator is in the group once exactly if no candidate enters under the creator's ACI. */
  lemma CreatorOnceIff(q: Request)
    ensures (forall a :: 0 < a < |Meant(q).members| ==> Meant(q).members[a].aci != q.creator.aci) <==>
              (forall i: nat :: Enters(q, i) ==> EnteredAci(q, i) != q.creator.aci)
  {
    if forall a :: 0 < a < |Meant(q).members| ==> Meant(q).members[a].aci != q.creator.aci {
      forall i: nat | Enters(q, i)
        ensures EnteredAci(q, i) != q.creator.aci
      {
        var a := MemberOf(q, i);
      }
    }
    if forall i: nat :: Enters(q, i) ==> EnteredAci(q, i) != q.creator.aci {
      forall a | 0 < a < |Meant(q).members|
        ensures Meant(q).members[a].aci != q.creator.aci
      {
        var i := CandidateAt(q, a);
      }
    }
  }

  ghost predicate DistinctMembers(members: seq<Member>) {
    forall a, b :: 0 <= a < b < |members| ==> members[a].aci != members[b].aci
  }

  ghost predicate EnterApart(q: Request) {
    && (forall i: nat :: Enters(q, i) ==> EnteredAci(q, i) != q.creator.aci)
    && (forall i: nat, j: nat :: i < j && Enters(q, i) && Enters(q, j) ==> EnteredAci(q, i) != EnteredAci(q, j))
  }

  /** Nobody is a member twice exactly if no candidate enters as the creator and no two under one ACI. */
  lemma MembersAreDistinctIff(q: Request)
    ensures DistinctMembers(Meant(q).members) <==> EnterApart(q)
  {
    CreatorLeads(q);
    if DistinctMembers(Meant(q).members) {
      forall i: nat | Enters(q, i)
        ensures EnteredAci(q, i) != q.creator.aci
      {
        var a := MemberOf(q, i);
      }
      forall i: nat, j: nat | i < j && Enters(q, i) && Enters(q, j)
        ensures EnteredAci(q, i) != EnteredAci(q, j)
      {
        var a := MemberOf(q, i);
        var b := MemberOf(q, j);
        WhoIsWhere(q);
      }
    }
    if EnterApart(q) {
      forall a, b | 0 <= a < b < |Meant(q).members|
        ensures Meant(q).members[a].aci != Meant(q).members[b].aci
      {
        var j := CandidateAt(q, b);
        if a > 0 {
          var i := CandidateAt(q, a);
          WhoIsWhere(q);
        }
      }
    }
  }

  /** Every candidate other than the creator has an entry, a member's or an invitation, and there are no others. */
  lemma EveryCandidateHasAnEntry(q: Request, i: nat)
    ensures Enters(q, i) ==> exists a: nat :: StandsAt(q, i, a)
    ensures IsInvited(q, i) ==> exists p :: p in Meant(q).pending && p.address == q.candidates[i].serviceId
    ensures |Meant(q).members| + |Meant(q).pending| == 1 + |Entering(q)| + |Inviting(q)|
  {
    WhoIsWhere(q);
    if Enters(q, i) {
      var a := MemberOf(q, i);
    } else if IsInvited(q, i) {
      var k :| 0 <= k < |Inviting(q)| && Inviting(q)[k] == i;
      assert [Meant(q).pending[k]] == Invite(q)(i);
      assert Meant(q).pending[k] in Meant(q).pending;
    }
  }

  /** A created group that has its creator twice, by way of somebody else's service id. */
  lemma UncheckedCredentialDuplicatesTheCreator(z: Zk, key: ProfileKey) returns (q: Request)
    requires Lawful(z)
    ensures DecryptGroup(z, CreatedGroup(z, q)).Ok?
    ensures DecryptGroup(z, CreatedGroup(z, q)).value.members
            == [Member(1, Administrator, key, 0, None, None), Member(1, Default, key, 0, None, None)]
  {
    var c := Candidate(Aci(2), Some(Credential(1, key)));
    q := Request("", None, None, None, Credential(1, key), [c], "", [], (_: nat) => [], [], [], []);
    CreatedGroupDecodes(z, q);
    assert Enters(q, 0) && Join(q)(0) == [Member(1, Default, key, 0, None, None)];
    assert Fold([CreatorMember(q)], Join(q), 1) == [CreatorMember(q)] + Join(q)(0);
  }
}
