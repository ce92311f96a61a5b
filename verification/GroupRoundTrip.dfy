/**
  What the group change decoder makes of the builders' actions, for every list of builder calls:
  the changes they mean, stably sorted by the decoder's chain order.
 */
module GroupRoundTrip {
  import opened Prelude
  import opened GroupOperations
  import opened StableOrder

  function NonEmpty(s: string): Option<string> {
    if s == "" then None else Some(s)
  }

  /** What the caller of a builder means by it. */
  function Meaning(z: Zk, b: Builder): GroupChange {
    match b
    case BuildAddMember(aci, key, role) => NewMember(Member(aci, role, key, 0, None, None))
    case BuildAddMemberWithCredential(c, role, _) => NewMember(Member(c.aci, role, c.profileKey, 0, None, None))
    case BuildRemoveMember(aci) => RemovedMember(aci)
    case BuildModifyMemberRole(aci, role) => ModifyMemberRole(aci, role)
    case BuildAddPendingMember(invitee, addedBy, role) => NewPendingMember(PendingMember(invitee, role, addedBy, 0))
    case BuildRemovePendingMember(invitee) => DeletePendingMember(invitee)
    case BuildPromotePendingMember(aci, key) => PromotePendingMember(Aci(aci), key)
    case BuildAddRequestingMember(aci, key) => NewRequestingMember(RequestingMember(aci, key, 0))
    case BuildRemoveRequestingMember(aci) => DeleteRequestingMember(aci)
    case BuildPromoteRequestingMember(aci, role) => PromoteRequestingMember(aci, role)
    case BuildModifyTitle(title, _) => NewTitle(title)
    case BuildModifyDescription(d, _) => NewDescription(NonEmpty(d))
    case BuildModifyTimer(d, _) => NewTimer(Some(d))
    case BuildModifyAvatar(path) => NewAvatar(path)
    case BuildModifyAttributesAccess(a) => AttributeAccess(a)
    case BuildModifyMembersAccess(a) => NewMemberAccess(a)
    case BuildModifyMemberLabelAccess(a) => NewMemberLabelAccess(a)
    case BuildModifyInviteLinkAccess(a) => NewInviteLinkAccess(a)
    case BuildModifyMemberLabel(aci, text, emoji, _, _) =>
      MemberLabel(Aci(aci), NonEmpty(emoji.GetOr("")), NonEmpty(text.GetOr("")))
    case BuildModifyAnnouncementsOnly(on) => AnnouncementOnly(on)
    case BuildModifyInviteLinkPassword(p) => NewInviteLinkPassword(z.base64(p))
    case OtherMember(c, role, version, text, emoji, _, _) =>
      NewMember(Member(c.aci, role, c.profileKey, version, NonEmpty(text.GetOr("")), NonEmpty(emoji.GetOr(""))))
    case OtherProfileKey(aci, key) => ModifyMemberProfileKey(aci, key)
    case OtherProfileKeyPresented(c, _) => ModifyMemberProfileKey(c.aci, c.profileKey)
    case OtherBan(user, timestamp) => AddBannedMember(user, timestamp)
    case OtherUnban(user) => DeleteBannedMember(user)
    case OtherPniPromotion(aci, pni, key) => PromotePendingPniAciMember(aci, pni, key)
    case OtherTermination => TerminateGroup
  }

  function Meanings(z: Zk, bs: seq<Builder>): (r: seq<GroupChange>)
    ensures |r| == |bs|
  {
    if bs == [] then [] else [Meaning(z, bs[0])] + Meanings(z, bs[1..])
  }

  function Built(z: Zk, bs: seq<Builder>): seq<Action> {
    if bs == [] then [] else [Build(z, bs[0])] + Built(z, bs[1..])
  }

  /** The message a caller fills in: every built action in the field it belongs to. */
  function Assemble(version: nat, entries: seq<Action>): Actions {
    Actions([], [], version, map k: Kind | true :: Select(KindOf, entries, k))
  }

  function Oks<C, E>(cs: seq<C>): seq<Result<C, E>> {
    seq(|cs|, i requires 0 <= i < |cs| => Ok(cs[i]))
  }

  // -- one builder ------------------------------------------------------------------

  lemma BlobRoundTrip(z: Zk, b: Blob, rand: Bytes)
    requires Lawful(z)
    ensures DecryptBlob(z, EncryptBlob(z, b, rand)) == Some(b)
  {
  }

  lemma LabelRoundTrip(z: Zk, s: Option<string>, rand: Bytes)
    requires Lawful(z)
    ensures DecryptLabel(z, EncryptLabel(z, s, rand)) == NonEmpty(s.GetOr(""))
  {
  }

  lemma PresentationRoundTrip(z: Zk, c: Credential, rand: Bytes, userId: Bytes, key: Bytes)
    requires Lawful(z)
    ensures DecryptPresentation(z, userId, key, z.present(c, rand)) == Ok((c.aci, c.profileKey))
    ensures DecryptPresentation(z, z.encryptServiceId(Aci(c.aci)), z.encryptKey(c.profileKey, c.aci), [])
            == Ok((c.aci, c.profileKey))
  {
  }

  lemma NumbersRoundTrip(r: Role, a: AccessRequired)
    ensures RoleOf(RoleNumber(r)) == Ok(r) && AccessOf(AccessNumber(a)) == Ok(a)
  {
  }

  ghost predicate Decodes(z: Zk, b: Builder) {
    && DecryptAction(z, Build(z, b)) == Some(Ok(Meaning(z, b)))
    && KindOf(Build(z, b)) == ChangeKind(Meaning(z, b))
  }

  lemma AddActionDecodes(z: Zk, b: Builder)
    requires Lawful(z) && (b.BuildAddMember? || b.BuildAddMemberWithCredential?)
    ensures Decodes(z, b)
  {
    match b
    case BuildAddMember(aci, key, role) =>
      PresentationRoundTrip(z, Credential(aci, key), [], [], []);
      NumbersRoundTrip(role, Any);
    case BuildAddMemberWithCredential(c, role, rand) =>
      PresentationRoundTrip(z, c, rand, [], []);
      NumbersRoundTrip(role, Any);
  }

  lemma MemberActionDecodes(z: Zk, b: Builder)
    requires Lawful(z) && (b.BuildRemoveMember? || b.BuildModifyMemberRole?)
    ensures Decodes(z, b)
  {
    if b.BuildModifyMemberRole? {
      NumbersRoundTrip(b.role, Any);
    }
  }

  lemma LabelActionDecodes(z: Zk, b: Builder)
    requires Lawful(z) && b.BuildModifyMemberLabel?
    ensures Decodes(z, b)
  {
    LabelRoundTrip(z, b.emoji, b.rand);
    LabelRoundTrip(z, b.text, b.rand2);
  }

  lemma PendingActionDecodes(z: Zk, b: Builder)
    requires Lawful(z) && (b.BuildAddPendingMember? || b.BuildRemovePendingMember? || b.BuildPromotePendingMember?)
    ensures Decodes(z, b)
  {
    match b
    case BuildAddPendingMember(_, _, role) => NumbersRoundTrip(role, Any);
    case BuildRemovePendingMember(_) =>
    case BuildPromotePendingMember(aci, key) => PresentationRoundTrip(z, Credential(aci, key), [], [], []);
  }

  lemma RequestingActionDecodes(z: Zk, b: Builder)
    requires Lawful(z) && (b.BuildAddRequestingMember? || b.BuildRemoveRequestingMember?)
    ensures Decodes(z, b)
  {
    match b
    case BuildAddRequestingMember(aci, key) => PresentationRoundTrip(z, Credential(aci, key), [], [], []);
    case BuildRemoveRequestingMember(aci) => assert Build(z, b) == DeleteRequestingAction(z.encryptServiceId(Aci(aci)));
  }

  lemma ApprovalActionDecodes(z: Zk, b: Builder)
    requires Lawful(z) && b.BuildPromoteRequestingMember?
    ensures Decodes(z, b)
  {
    NumbersRoundTrip(b.role, Any);
  }

  lemma TextActionDecodes(z: Zk, b: Builder)
    requires Lawful(z) && (b.BuildModifyTitle? || b.BuildModifyDescription?)
    ensures Decodes(z, b)
  {
    match b
    case BuildModifyTitle(t, rand) => BlobRoundTrip(z, Title(t), rand);
    case BuildModifyDescription(d, rand) => BlobRoundTrip(z, DescriptionText(d), rand);
  }

  lemma TimerActionDecodes(z: Zk, b: Builder)
    requires Lawful(z) && b.BuildModifyTimer?
    ensures Decodes(z, b)
  {
    BlobRoundTrip(z, Timer(b.duration), b.rand);
  }

  lemma AccessActionDecodes(z: Zk, b: Builder)
    requires Lawful(z) && (b.BuildModifyAttributesAccess? || b.BuildModifyMembersAccess?)
    ensures Decodes(z, b)
  {
    NumbersRoundTrip(Default, b.access);
  }

  lemma LinkAndLabelAccessActionDecodes(z: Zk, b: Builder)
    requires Lawful(z) && (b.BuildModifyMemberLabelAccess? || b.BuildModifyInviteLinkAccess?)
    ensures Decodes(z, b)
  {
    NumbersRoundTrip(Default, b.access);
    match b
    case BuildModifyMemberLabelAccess(a) => assert Build(z, b) == ModifyMemberLabelAccessAction(AccessNumber(a));
    case BuildModifyInviteLinkAccess(a) => assert Build(z, b) == ModifyInviteLinkAccessAction(AccessNumber(a));
  }

  lemma PlainActionDecodes(z: Zk, b: Builder)
    requires Lawful(z)
    requires b.BuildModifyAvatar? || b.BuildModifyAnnouncementsOnly? || b.BuildModifyInviteLinkPassword?
    ensures Decodes(z, b)
  {
  }

  lemma OtherMemberDecodes(z: Zk, b: Builder)
    requires Lawful(z) && b.OtherMember?
    ensures Decodes(z, b)
  {
    PresentationRoundTrip(z, b.credential, [], [], []);
    NumbersRoundTrip(b.role, Any);
    LabelRoundTrip(z, b.emoji, b.rand);
    LabelRoundTrip(z, b.text, b.rand2);
  }

  lemma OtherProfileKeyDecodes(z: Zk, b: Builder)
    requires Lawful(z) && (b.OtherProfileKey? || b.OtherProfileKeyPresented?)
    ensures Decodes(z, b)
  {
    match b
    case OtherProfileKey(aci, key) => PresentationRoundTrip(z, Credential(aci, key), [], [], []);
    case OtherProfileKeyPresented(c, rand) => PresentationRoundTrip(z, c, rand, [], []);
  }

  lemma OtherBanDecodes(z: Zk, b: Builder)
    requires Lawful(z) && (b.OtherBan? || b.OtherUnban?)
    ensures Decodes(z, b)
  {
  }

  lemma OtherPromotionDecodes(z: Zk, b: Builder)
    requires Lawful(z) && (b.OtherPniPromotion? || b.OtherTermination?)
    ensures Decodes(z, b)
  {
  }

  /** Whatever is sealed or presented is so with the randomness drawn for it. */
  lemma EachSealHasItsDraw(z: Zk, b: Builder)
    ensures b.BuildModifyTitle? ==> Build(z, b).blob == z.sealBlob(b.rand, z.encodeBlob(Title(b.title)))
    ensures b.BuildModifyDescription? ==> Build(z, b).blob == z.sealBlob(b.rand, z.encodeBlob(DescriptionText(b.description)))
    ensures b.BuildModifyTimer? ==> Build(z, b).blob == z.sealBlob(b.rand, z.encodeBlob(Timer(b.duration)))
    ensures b.BuildAddMemberWithCredential? ==> Build(z, b).added.value.presentation == z.present(b.credential, b.rand)
    ensures b.BuildModifyMemberLabel? ==>
              && (b.emoji.GetOr("") != "" ==> Build(z, b).labelEmoji == z.sealBlob(b.rand, z.utf8(b.emoji.value)))
              && (b.text.GetOr("") != "" ==> Build(z, b).labelString == z.sealBlob(b.rand2, z.utf8(b.text.value)))
              && (b.emoji.GetOr("") == "" ==> Build(z, b).labelEmoji == [])
              && (b.text.GetOr("") == "" ==> Build(z, b).labelString == [])
  {
  }

  /** What any one builder writes, the decoder reads back as what was meant, in the field it was meant for. */
  lemma BuiltActionDecodes(z: Zk, b: Builder)
    requires Lawful(z)
    ensures Decodes(z, b)
  {
    if b.BuildAddMember? || b.BuildAddMemberWithCredential? {
      AddActionDecodes(z, b);
    } else if b.BuildRemoveMember? || b.BuildModifyMemberRole? {
      MemberActionDecodes(z, b);
    } else if b.BuildModifyMemberLabel? {
      LabelActionDecodes(z, b);
    } else if b.BuildAddPendingMember? || b.BuildRemovePendingMember? || b.BuildPromotePendingMember? {
      PendingActionDecodes(z, b);
    } else if b.BuildAddRequestingMember? || b.BuildRemoveRequestingMember? {
      RequestingActionDecodes(z, b);
    } else if b.BuildPromoteRequestingMember? {
      ApprovalActionDecodes(z, b);
    } else if b.BuildModifyTitle? || b.BuildModifyDescription? {
      TextActionDecodes(z, b);
    } else if b.BuildModifyTimer? {
      TimerActionDecodes(z, b);
    } else if b.BuildModifyAvatar? || b.BuildModifyAnnouncementsOnly? || b.BuildModifyInviteLinkPassword? {
      PlainActionDecodes(z, b);
    } else if b.OtherMember? {
      OtherMemberDecodes(z, b);
    } else if b.OtherProfileKey? || b.OtherProfileKeyPresented? {
      OtherProfileKeyDecodes(z, b);
    } else if b.OtherBan? || b.OtherUnban? {
      OtherBanDecodes(z, b);
    } else if b.OtherPniPromotion? || b.OtherTermination? {
      OtherPromotionDecodes(z, b);
    } else if b.BuildModifyAttributesAccess? || b.BuildModifyMembersAccess? {
      AccessActionDecodes(z, b);
    } else {
      LinkAndLabelAccessActionDecodes(z, b);
    }
  }

  // -- entries that do not decode ---------------------------------------------------

  /** The id an entry of this form is decoded from: the presentation's, when there is one. */
  function PresentedId(z: Zk, userId: Bytes, presentation: Bytes): Option<Bytes> {
    if presentation == [] then Some(userId)
    else
      match z.parsePresentation(presentation)
      case Ok(parts) => Some(parts.0)
      case Err(_) => None
  }

  /** The ciphertext that must hold an ACI, where the decoder comes to read it. */
  function AciField(z: Zk, a: Action): Option<Bytes> {
    match a
    case AddMemberAction(Some(m)) => PresentedId(z, m.userId, m.presentation)
    case DeleteMemberAction(id) => Some(id)
    case ModifyMemberRoleAction(id, _) => Some(id)
    case ModifyMemberProfileKeyAction(id, _, presentation) => PresentedId(z, id, presentation)
    case AddPendingAction(Some(EncryptedPending(Some(m), addedBy, _))) =>
      if z.decryptServiceId(m.userId).Ok? then Some(addedBy) else None
    case PromotePendingAction(id, _, presentation) => PresentedId(z, id, presentation)
    case PromotePniAciAction(id, _, _) => Some(id)
    case AddRequestingAction(Some(m)) => PresentedId(z, m.userId, m.presentation)
    case DeleteRequestingAction(id) => Some(id)
    case PromoteRequestingAction(id, _) => Some(id)
    case _ => None
  }

  predicate HoldsPni(z: Zk, ciphertext: Bytes) {
    z.decryptServiceId(ciphertext).Ok? && z.decryptServiceId(ciphertext).value.Pni?
  }

  /** The libraries have errors of their own. */
  ghost predicate NeverSays(z: Zk, e: GroupError) {
    && (forall b {:trigger z.decryptServiceId(b)} :: z.decryptServiceId(b) != Err(e))
    && (forall b, aci {:trigger z.decryptKey(b, aci)} :: z.decryptKey(b, aci) != Err(e))
    && (forall b {:trigger z.parsePresentation(b)} :: z.parsePresentation(b) != Err(e))
  }

  lemma PresentationNotAciIff(z: Zk, userId: Bytes, profileKey: Bytes, presentation: Bytes)
    requires NeverSays(z, NotAci)
    ensures DecryptPresentation(z, userId, profileKey, presentation) == Err(NotAci) <==>
              var id := PresentedId(z, userId, presentation); id.Some? && HoldsPni(z, id.value)
  {
  }

  ghost predicate NotAciExact(z: Zk, a: Action) {
    DecryptAction(z, a) == Some(Err(NotAci)) <==> AciField(z, a).Some? && HoldsPni(z, AciField(z, a).value)
  }

  lemma MemberNotAciIff(z: Zk, m: EncryptedMember)
    requires NeverSays(z, NotAci)
    ensures NotAciExact(z, AddMemberAction(Some(m)))
  {
    PresentationNotAciIff(z, m.userId, m.profileKey, m.presentation);
  }

  lemma RequestingNotAciIff(z: Zk, m: EncryptedRequesting)
    requires NeverSays(z, NotAci)
    ensures NotAciExact(z, AddRequestingAction(Some(m)))
  {
    PresentationNotAciIff(z, m.userId, m.profileKey, m.presentation);
  }

  lemma ProfileKeyNotAciIff(z: Zk, id: Bytes, key: Bytes, presentation: Bytes)
    requires NeverSays(z, NotAci)
    ensures NotAciExact(z, ModifyMemberProfileKeyAction(id, key, presentation))
    ensures NotAciExact(z, PromotePendingAction(id, key, presentation))
  {
    PresentationNotAciIff(z, id, key, presentation);
  }

  lemma PendingNotAciIff(z: Zk, m: EncryptedPending)
    requires NeverSays(z, NotAci)
    ensures NotAciExact(z, AddPendingAction(Some(m)))
  {
  }

  lemma IdNotAciIff(z: Zk, a: Action)
    requires NeverSays(z, NotAci) && AciField(z, a).Some?
    requires !a.AddMemberAction? && !a.AddRequestingAction? && !a.AddPendingAction?
    requires !a.ModifyMemberProfileKeyAction? && !a.PromotePendingAction?
    ensures NotAciExact(z, a)
  {
  }

  lemma OtherNotAciIff(z: Zk, a: Action)
    requires NeverSays(z, NotAci) && AciField(z, a).None?
    requires a.AddMemberAction? ==> a.added.None?
    requires a.AddRequestingAction? ==> a.addedRequesting.None?
    requires a.AddPendingAction? ==> a.addedPending.None?
    requires !a.ModifyMemberProfileKeyAction? && !a.PromotePendingAction?
    ensures NotAciExact(z, a)
  {
  }

  /**
    An entry is refused for not naming an ACI exactly if there is a PNI where an ACI is called for: in
    a plain id, inside a presentation, or as the inviter of somebody.
   */
  lemma NotAciIff(z: Zk, a: Action)
    requires NeverSays(z, NotAci)
    ensures NotAciExact(z, a)
  {
    if a.AddMemberAction? && a.added.Some? {
      MemberNotAciIff(z, a.added.value);
    } else if a.AddRequestingAction? && a.addedRequesting.Some? {
      RequestingNotAciIff(z, a.addedRequesting.value);
    } else if a.ModifyMemberProfileKeyAction? || a.PromotePendingAction? {
      ProfileKeyNotAciIff(z, a.userId, a.profileKey, a.presentation);
    } else if a.AddPendingAction? && a.addedPending.Some? {
      PendingNotAciIff(z, a.addedPending.value);
    } else if AciField(z, a).Some? {
      IdNotAciIff(z, a);
    } else {
      OtherNotAciIff(z, a);
    }
  }

  /** The number an entry carries for a role or an access level, and how many values there are. */
  function EnumField(a: Action): Option<(int, int)> {
    match a
    case AddMemberAction(Some(m)) => Some((m.role, 3))
    case ModifyMemberRoleAction(_, r) => Some((r, 3))
    case AddPendingAction(Some(EncryptedPending(Some(m), _, _))) => Some((m.role, 3))
    case PromoteRequestingAction(_, r) => Some((r, 3))
    case ModifyAttributesAccessAction(n) => Some((n, 5))
    case ModifyMemberAccessAction(n) => Some((n, 5))
    case ModifyInviteLinkAccessAction(n) => Some((n, 5))
    case ModifyMemberLabelAccessAction(n) => Some((n, 5))
    case _ => None
  }

  /** Exactly the numbers of the enumerations are read, and each as itself. */
  lemma EnumerationsIff(n: int, r: Role, a: AccessRequired)
    ensures RoleOf(n) == Ok(r) <==> n == RoleNumber(r)
    ensures AccessOf(n) == Ok(a) <==> n == AccessNumber(a)
    ensures RoleOf(n) == Err(WrongEnumValue) <==> !(0 <= n < 3)
    ensures AccessOf(n) == Err(WrongEnumValue) <==> !(0 <= n < 5)
  {
  }

  /** An entry that is refused for a number has one out of range; a pending member is refused as empty exactly if it is. */
  lemma RefusedForItsNumber(z: Zk, a: Action)
    requires NeverSays(z, WrongEnumValue) && DecryptAction(z, a) == Some(Err(WrongEnumValue))
    ensures EnumField(a).Some? && !(0 <= EnumField(a).value.0 < EnumField(a).value.1)
  {
  }

  lemma EmptyPendingIff(z: Zk, m: EncryptedPending)
    requires NeverSays(z, WrongBlob)
    ensures DecryptAction(z, AddPendingAction(Some(m))) == Some(Err(WrongBlob)) <==> m.member.None?
  {
  }

  /** The fields that may come more than once. */
  lemma RepeatedFields(k: Kind)
    ensures !Singular(k) <==>
              k in {AddMember, DeleteMember, MemberRole, MemberProfileKey, AddPending, DeletePending, PromotePending, AddBanned,
                    DeleteBanned, PromotePniAci, AddRequesting, DeleteRequesting, PromoteRequesting, MemberLabels}
  {
  }

  /** Wherever a number stands for a role or an access level, one out of range is refused. */
  lemma OutOfRangeIsRefused(z: Zk, a: Action)
    requires EnumField(a).Some? && !(0 <= EnumField(a).value.0 < EnumField(a).value.1)
    ensures DecryptAction(z, a).Some? && DecryptAction(z, a).value.Err?
  {
  }

  /** Whatever its labels, a member decodes as it would without them, and each label reads by itself. */
  lemma LabelsNeverFail(z: Zk, m: EncryptedMember)
    ensures var bare := DecryptMember(z, m.(labelString := [], labelEmoji := []));
            DecryptMember(z, m)
            == if bare.Err? then bare
               else Ok(bare.value.(labelString := DecryptLabel(z, m.labelString), labelEmoji := DecryptLabel(z, m.labelEmoji)))
  {
  }

  /** A promotion by phone number takes an ACI and a PNI, in that order. */
  lemma PniPromotionDecodes(z: Zk, user: ServiceId, pni: ServiceId, key: ProfileKey)
    requires Lawful(z)
    ensures DecryptAction(z, PromotePniAciAction(z.encryptServiceId(user), z.encryptServiceId(pni), z.encryptKey(key, user.uuid)))
            == Some(if user.Pni? then Err(NotAci) else if pni.Aci? then Err(NotPni)
                    else Ok(PromotePendingPniAciMember(user.uuid, pni.uuid, key)))
  {
  }

  // -- one field, all fields --------------------------------------------------------

  /** Entry by entry the actions decode to the changes and belong to the same kinds. */
  ghost predicate Paired<A, C, E, K>(decrypt: A -> Option<Result<C, E>>, kindOf: A -> K, changeKind: C -> K,
                                     entries: seq<A>, cs: seq<C>)
  {
    && |entries| == |cs|
    && forall i :: 0 <= i < |cs| ==> decrypt(entries[i]) == Some(Ok(cs[i])) && kindOf(entries[i]) == changeKind(cs[i])
  }

  lemma {:induction false} FieldDecodes<A, C, E, K>(decrypt: A -> Option<Result<C, E>>, kindOf: A -> K, changeKind: C -> K,
                                                    entries: seq<A>, cs: seq<C>, k: K)
    requires Paired(decrypt, kindOf, changeKind, entries, cs)
    ensures FilterMap(decrypt, Select(kindOf, entries, k)) == Oks(Select(changeKind, cs, k))
    decreases entries
  {
    if entries != [] {
      FieldDecodes(decrypt, kindOf, changeKind, entries[1..], cs[1..], k);
      var rest := Select(kindOf, entries[1..], k);
      if kindOf(entries[0]) == k {
        assert Select(kindOf, entries, k)[1..] == rest;
      } else {
        assert Select(kindOf, entries, k) == rest;
      }
    }
  }

  lemma {:induction false} BuiltArePaired(z: Zk, bs: seq<Builder>)
    requires Lawful(z)
    ensures Paired(Decryptor(z), KindOf, ChangeKind, Built(z, bs), Meanings(z, bs))
  {
    if bs != [] {
      BuiltActionDecodes(z, bs[0]);
      BuiltArePaired(z, bs[1..]);
    }
  }

  lemma {:induction false} ChainDecodes<A, C, E, K>(decrypt: A -> Option<Result<C, E>>, kindOf: A -> K, changeKind: C -> K,
                                                    entries: seq<A>, cs: seq<C>, kinds: seq<K>, fields: map<K, seq<A>>)
    requires Paired(decrypt, kindOf, changeKind, entries, cs)
    requires forall k :: k in kinds ==> k in fields && fields[k] == Select(kindOf, entries, k)
    ensures Chain(decrypt, fields, kinds) == Oks(InOrder(changeKind, cs, kinds))
    decreases kinds
  {
    if kinds != [] {
      FieldDecodes(decrypt, kindOf, changeKind, entries, cs, kinds[0]);
      ChainDecodes(decrypt, kindOf, changeKind, entries, cs, kinds[1..], fields);
      OksConcat<C, E>(Select(changeKind, cs, kinds[0]), InOrder(changeKind, cs, kinds[1..]));
    }
  }

  lemma OksConcat<C, E>(a: seq<C>, b: seq<C>)
    ensures Oks<C, E>(a + b) == Oks<C, E>(a) + Oks<C, E>(b)
  {
  }

  lemma {:induction false} CollectOks<C, E>(cs: seq<C>)
    ensures Collect<C, E>(Oks(cs)) == Ok(cs)
  {
    if cs != [] {
      CollectOks<C, E>(cs[1..]);
      assert Oks<C, E>(cs)[0] == Ok(cs[0]) && Oks<C, E>(cs)[1..] == Oks(cs[1..]);
      assert cs == [cs[0]] + cs[1..];
    }
  }

  /** The message so assembled is one: every entry in the field of its kind, at most one in an optional field. */
  lemma AssembledIsWellFormed(version: nat, entries: seq<Action>)
    ensures WellFormed(Assemble(version, entries)) <==> FitsTheMessage(entries)
  {
    forall k: Kind
      ensures forall e :: e in Assemble(version, entries).fields[k] ==> KindOf(e) == k
    {
      SelectedAreOfKind(KindOf, entries, k);
    }
    if WellFormed(Assemble(version, entries)) {
      forall k | Singular(k)
        ensures |Select(KindOf, entries, k)| <= 1
      {
        assert k in Assemble(version, entries).fields;
      }
    }
  }

  /** An optional field of the message can take one action only. */
  ghost predicate FitsTheMessage(entries: seq<Action>) {
    forall k :: Singular(k) ==> |Select(KindOf, entries, k)| <= 1
  }

  /**
    The round trip. Any list of builder calls, put in the fields of a message and sent as a change
    by `editor`, is read back as that editor, the derived group id, the message's version, and the
    meanings of the calls in chain order.
   */
  lemma GroupChangeRoundTrip(z: Zk, editor: nat, version: nat, bs: seq<Builder>)
    requires Lawful(z)
    requires Encodable(z, Stamped(z, editor, Assemble(version, Built(z, bs))))
    ensures DecryptGroupChange(z, EncryptGroupChange(z, editor, Assemble(version, Built(z, bs))))
            == Ok(GroupChanges(z.groupId, editor, version, InOrder(ChangeKind, Meanings(z, bs), CHAIN), 0))
  {
    var entries, cs := Built(z, bs), InOrder(ChangeKind, Meanings(z, bs), CHAIN);
    var sent := Stamped(z, editor, Assemble(version, entries));
    BuiltArePaired(z, bs);
    ChainDecodes(Decryptor(z), KindOf, ChangeKind, entries, Meanings(z, bs), CHAIN, sent.fields);
    CollectOks<GroupChange, GroupError>(cs);
    SentIsRead(z, editor, sent, cs);
  }

  lemma SentIsRead(z: Zk, editor: nat, sent: Actions, cs: seq<GroupChange>)
    requires Lawful(z) && Encodable(z, sent)
    requires sent.sourceUserId == z.encryptServiceId(Aci(editor)) && sent.groupId == z.groupId
    requires Collect(Chain(Decryptor(z), sent.fields, CHAIN)) == Ok(cs)
    ensures DecryptGroupChange(z, EncryptedChange(z.encodeActions(sent), [], 0))
            == Ok(GroupChanges(z.groupId, editor, sent.version, cs, 0))
  {
  }

  // -- the chain order --------------------------------------------------------------

  function Rank(k: Kind): nat {
    match k
    case AddMember => 0 case DeleteMember => 1 case MemberRole => 2 case MemberProfileKey => 3
    case AddPending => 4 case DeletePending => 5 case PromotePending => 6 case TitleKind => 7
    case AvatarKind => 8 case TimerKind => 9 case AttributesAccess => 10 case DescriptionKind => 11
    case MemberAccess => 12 case AddBanned => 13 case DeleteBanned => 14 case PromotePniAci => 15
    case InviteLinkAccess => 16 case AddRequesting => 17 case DeleteRequesting => 18
    case PromoteRequesting => 19 case InviteLinkPassword => 20 case Announcements => 21
    case MemberLabels => 22 case MemberLabelAccess => 23 case Terminate => 24
  }

  lemma RankIsPosition(i: nat)
    requires i < |CHAIN|
    ensures Rank(CHAIN[i]) == i
  {
  }

  lemma ChainListsEveryKindOnce()
    ensures Duplicateless(CHAIN) && forall k: Kind :: k in CHAIN
  {
    forall i, j | 0 <= i < j < |CHAIN|
      ensures CHAIN[i] != CHAIN[j]
    {
      RankIsPosition(i);
      RankIsPosition(j);
    }
    forall k: Kind
      ensures k in CHAIN
    {
      assert CHAIN[Rank(k)] == k;
    }
  }

  /** Nothing meant is lost, doubled or moved within its kind, and kinds come in the decoder's order. */
  lemma ChangesAreStablySorted(z: Zk, bs: seq<Builder>, i: nat, j: nat)
    ensures var r := InOrder(ChangeKind, Meanings(z, bs), CHAIN);
            && multiset(r) == multiset(Meanings(z, bs))
            && (forall k: Kind :: Select(ChangeKind, r, k) == Select(ChangeKind, Meanings(z, bs), k))
            && (i <= j < |r| ==> Rank(ChangeKind(r[i])) <= Rank(ChangeKind(r[j])))
  {
    ChainListsEveryKindOnce();
    OrderIsStable(ChangeKind, Meanings(z, bs), CHAIN);
    var r := InOrder(ChangeKind, Meanings(z, bs), CHAIN);
    if i <= j < |r| {
      var p, q := OrderIsSorted(ChangeKind, Meanings(z, bs), CHAIN, i, j);
      RankIsPosition(p);
      RankIsPosition(q);
    }
  }

  // -- any actions at all -----------------------------------------------------------

  /** Collecting succeeds exactly when every entry does, keeps them all in order, and else reports the first failure. */
  lemma {:induction false} CollectAllOrFirst<T, E>(rs: seq<Result<T, E>>)
    ensures Collect(rs).Ok? <==> forall r :: r in rs ==> r.Ok?
    ensures Collect(rs).Ok? ==>
              |Collect(rs).value| == |rs| && forall i :: 0 <= i < |rs| ==> rs[i] == Ok(Collect(rs).value[i])
    ensures Collect(rs).Err? ==>
              exists i :: 0 <= i < |rs| && rs[i].Err? && rs[i].error == Collect(rs).error
                          && forall j :: 0 <= j < i ==> rs[j].Ok?
  {
    if rs != [] {
      CollectAllOrFirst(rs[1..]);
      assert rs == [rs[0]] + rs[1..];
      if rs[0].Ok? && Collect(rs[1..]).Err? {
        var i :| 0 <= i < |rs[1..]| && rs[1..][i].Err? && rs[1..][i].error == Collect(rs[1..]).error
                 && forall j :: 0 <= j < i ==> rs[1..][j].Ok?;
        assert rs[i + 1] == rs[1..][i];
        assert forall j :: 0 < j < i + 1 ==> rs[j] == rs[1..][j - 1];
      } else if rs[0].Err? {
        assert rs[0].error == Collect(rs).error;
      }
    }
  }

  /** What a change says of itself is what its message and its envelope say: editor, group, version, epoch, and entry by entry. */
  lemma DecodedAsSent(z: Zk, change: EncryptedChange)
    requires DecryptGroupChange(z, change).Ok?
    ensures var r, a := DecryptGroupChange(z, change).value, z.decodeActions(change.actions);
            && r.changeEpoch == change.changeEpoch
            && a.Some? && r.groupId == a.value.groupId && r.version == a.value.version
            && z.decryptServiceId(a.value.sourceUserId) == Ok(Aci(r.editor))
            && var entries := Chain(Decryptor(z), a.value.fields, CHAIN);
               |r.changes| == |entries| && forall i :: 0 <= i < |entries| ==> entries[i] == Ok(r.changes[i])
  {
    CollectAllOrFirst(Chain(Decryptor(z), z.decodeActions(change.actions).value.fields, CHAIN));
  }

  ghost predicate FirstBad<T, E>(rs: seq<Result<T, E>>, i: nat, e: E) {
    i < |rs| && rs[i] == Err(e) && forall j :: 0 <= j < i ==> rs[j].Ok?
  }

  ghost predicate SomeFirstBad<T, E>(rs: seq<Result<T, E>>, e: E) {
    exists i: nat :: FirstBad(rs, i, e)
  }

  lemma CollectBlamesTheFirst<T, E>(rs: seq<Result<T, E>>)
    requires Collect(rs).Err?
    ensures SomeFirstBad(rs, Collect(rs).error)
  {
    CollectAllOrFirst(rs);
    var i: nat :| i < |rs| && rs[i].Err? && rs[i].error == Collect(rs).error && forall j :: 0 <= j < i ==> rs[j].Ok?;
    assert FirstBad(rs, i, Collect(rs).error);
  }

  /** What is wrong with a message that was decoded: its editor, else its group id, else its first bad entry. */
  ghost predicate Wrong(z: Zk, a: Actions, e: GroupError) {
    if DecryptAci(z, a.sourceUserId).Err? then DecryptAci(z, a.sourceUserId).error == e
    else if |a.groupId| != GROUP_IDENTIFIER_LEN then e == WrongBlob
    else SomeFirstBad(Chain(Decryptor(z), a.fields, CHAIN), e)
  }

  /** A change is refused for the first thing wrong with it. */
  lemma RefusedForTheFirstWrong(z: Zk, change: EncryptedChange)
    requires DecryptGroupChange(z, change).Err?
    ensures var e, a := DecryptGroupChange(z, change).error, z.decodeActions(change.actions);
            if a.None? then e == ProtobufDecodeError else Wrong(z, a.value, e)
  {
    if z.decodeActions(change.actions).Some? {
      var a := z.decodeActions(change.actions).value;
      var entries := Chain(Decryptor(z), a.fields, CHAIN);
      if Collect(entries).Err? {
        CollectBlamesTheFirst(entries);
      }
    }
  }

  /** Whoever sent it: a change is refused when its message, its editor, its group id or any one action is bad. */
  lemma DecodesIff(z: Zk, change: EncryptedChange)
    ensures DecryptGroupChange(z, change).Ok? <==>
              && z.decodeActions(change.actions).Some?
              && var a := z.decodeActions(change.actions).value;
                 && DecryptAci(z, a.sourceUserId).Ok? && |a.groupId| == GROUP_IDENTIFIER_LEN
                 && forall r :: r in Chain(Decryptor(z), a.fields, CHAIN) ==> r.Ok?
  {
    if z.decodeActions(change.actions).Some? {
      CollectAllOrFirst(Chain(Decryptor(z), z.decodeActions(change.actions).value.fields, CHAIN));
    }
  }
}
