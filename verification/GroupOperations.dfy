/**
  Groups (src/groups_v2/operations.rs): the encoder's `build_*` actions and the decoder of a group
  change. zkgroup, UTF-8, base64 and the protobuf bodies are functions given from outside.
 */
module GroupOperations {
  import opened Prelude

  const GROUP_IDENTIFIER_LEN: nat := 32

  const PROFILE_KEY_LEN: nat := 32

  type ProfileKey = k: Bytes | |k| == PROFILE_KEY_LEN witness Zeros(32)

  datatype Role = Unknown | Default | Administrator

  datatype AccessRequired = UnknownAccess | Any | Members | Administrators | Unsatisfiable

  /** A credential vouches for one ACI and its profile key. */
  datatype Credential = Credential(aci: nat, profileKey: ProfileKey)

  datatype Blob = Title(title: string) | Avatar(avatar: Bytes) | Timer(duration: nat) | DescriptionText(text: string)

  datatype GroupError =
    | ZkGroupDeserializationFailure | ZkGroupVerificationFailure | ProtobufDecodeError
    | WrongBlob | WrongEnumValue | NotAci | NotPni

  // -- wire messages ----------------------------------------------------------------

  datatype EncryptedMember = EncryptedMember(
    userId: Bytes, profileKey: Bytes, presentation: Bytes, role: int, joinedAtVersion: nat,
    labelEmoji: Bytes, labelString: Bytes)

  datatype EncryptedPending = EncryptedPending(member: Option<EncryptedMember>, addedByUserId: Bytes, timestamp: nat)

  datatype EncryptedRequesting = EncryptedRequesting(userId: Bytes, profileKey: Bytes, presentation: Bytes, timestamp: nat)

  datatype EncryptedBanned = EncryptedBanned(userId: Bytes, timestamp: nat)

  /** One entry of one of the 25 action fields. */
  datatype Action =
    | AddMemberAction(added: Option<EncryptedMember>)
    | DeleteMemberAction(deletedUserId: Bytes)
    | ModifyMemberRoleAction(userId: Bytes, role: int)
    | ModifyMemberProfileKeyAction(userId: Bytes, profileKey: Bytes, presentation: Bytes)
    | AddPendingAction(addedPending: Option<EncryptedPending>)
    | DeletePendingAction(deletedUserId: Bytes)
    | PromotePendingAction(userId: Bytes, profileKey: Bytes, presentation: Bytes)
    | ModifyTitleAction(blob: Bytes)
    | ModifyAvatarAction(path: string)
    | ModifyTimerAction(blob: Bytes)
    | ModifyAttributesAccessAction(access: int)
    | ModifyDescriptionAction(blob: Bytes)
    | ModifyMemberAccessAction(access: int)
    | AddBannedAction(addedBanned: Option<EncryptedBanned>)
    | DeleteBannedAction(deletedUserId: Bytes)
    | PromotePniAciAction(userId: Bytes, pni: Bytes, profileKey: Bytes)
    | ModifyInviteLinkAccessAction(access: int)
    | AddRequestingAction(addedRequesting: Option<EncryptedRequesting>)
    | DeleteRequestingAction(deletedUserId: Bytes)
    | PromoteRequestingAction(userId: Bytes, role: int)
    | ModifyInviteLinkPasswordAction(password: Bytes)
    | ModifyAnnouncementsOnlyAction(announcementsOnly: bool)
    | ModifyMemberLabelAction(userId: Bytes, labelEmoji: Bytes, labelString: Bytes)
    | ModifyMemberLabelAccessAction(access: int)
    | TerminateGroupAction

  datatype Kind =
    | AddMember | DeleteMember | MemberRole | MemberProfileKey | AddPending | DeletePending | PromotePending
    | TitleKind | AvatarKind | TimerKind | AttributesAccess | DescriptionKind | MemberAccess | AddBanned | DeleteBanned
    | PromotePniAci | InviteLinkAccess | AddRequesting | DeleteRequesting | PromoteRequesting
    | InviteLinkPassword | Announcements | MemberLabels | MemberLabelAccess | Terminate

  /** The order in which the decoder chains the fields. */
  const CHAIN: seq<Kind> := [
    AddMember, DeleteMember, MemberRole, MemberProfileKey, AddPending, DeletePending, PromotePending,
    TitleKind, AvatarKind, TimerKind, AttributesAccess, DescriptionKind, MemberAccess, AddBanned, DeleteBanned,
    PromotePniAci, InviteLinkAccess, AddRequesting, DeleteRequesting, PromoteRequesting,
    InviteLinkPassword, Announcements, MemberLabels, MemberLabelAccess, Terminate]

  function KindOf(a: Action): Kind {
    match a
    case AddMemberAction(_) => AddMember
    case DeleteMemberAction(_) => DeleteMember
    case ModifyMemberRoleAction(_, _) => MemberRole
    case ModifyMemberProfileKeyAction(_, _, _) => MemberProfileKey
    case AddPendingAction(_) => AddPending
    case DeletePendingAction(_) => DeletePending
    case PromotePendingAction(_, _, _) => PromotePending
    case ModifyTitleAction(_) => TitleKind
    case ModifyAvatarAction(_) => AvatarKind
    case ModifyTimerAction(_) => TimerKind
    case ModifyAttributesAccessAction(_) => AttributesAccess
    case ModifyDescriptionAction(_) => DescriptionKind
    case ModifyMemberAccessAction(_) => MemberAccess
    case AddBannedAction(_) => AddBanned
    case DeleteBannedAction(_) => DeleteBanned
    case PromotePniAciAction(_, _, _) => PromotePniAci
    case ModifyInviteLinkAccessAction(_) => InviteLinkAccess
    case AddRequestingAction(_) => AddRequesting
    case DeleteRequestingAction(_) => DeleteRequesting
    case PromoteRequestingAction(_, _) => PromoteRequesting
    case ModifyInviteLinkPasswordAction(_) => InviteLinkPassword
    case ModifyAnnouncementsOnlyAction(_) => Announcements
    case ModifyMemberLabelAction(_, _, _) => MemberLabels
    case ModifyMemberLabelAccessAction(_) => MemberLabelAccess
    case TerminateGroupAction => Terminate
  }

  /** Fields that are optional rather than repeated. */
  predicate Singular(k: Kind) {
    k in {TitleKind, AvatarKind, TimerKind, AttributesAccess, DescriptionKind, MemberAccess, InviteLinkAccess,
          InviteLinkPassword, Announcements, MemberLabelAccess, Terminate}
  }

  /** The actions message: its fields are kept under their kind. */
  datatype Actions = Actions(groupId: Bytes, sourceUserId: Bytes, version: nat, fields: map<Kind, seq<Action>>)

  ghost predicate WellFormed(a: Actions) {
    forall k: Kind ::
      k in a.fields && (forall e :: e in a.fields[k] ==> KindOf(e) == k) && (Singular(k) ==> |a.fields[k]| <= 1)
  }

  datatype EncryptedChange = EncryptedChange(actions: Bytes, serverSignature: Bytes, changeEpoch: nat)

  // -- decoded values ---------------------------------------------------------------

  datatype Member = Member(
    aci: nat, role: Role, profileKey: ProfileKey, joinedAtVersion: nat, labelString: Option<string>, labelEmoji: Option<string>)

  datatype PendingMember = PendingMember(address: ServiceId, role: Role, addedByAci: nat, timestamp: nat)

  datatype RequestingMember = RequestingMember(aci: nat, profileKey: ProfileKey, timestamp: nat)

  datatype GroupChange =
    | NewMember(member: Member)
    | RemovedMember(aci: nat)
    | ModifyMemberRole(aci: nat, role: Role)
    | ModifyMemberProfileKey(aci: nat, profileKey: ProfileKey)
    | NewPendingMember(pending: PendingMember)
    | DeletePendingMember(address: ServiceId)
    | PromotePendingMember(address: ServiceId, profileKey: ProfileKey)
    | NewTitle(text: string)
    | NewAvatar(path: string)
    | NewTimer(timer: Option<nat>)
    | AttributeAccess(access: AccessRequired)
    | NewDescription(description: Option<string>)
    | NewMemberAccess(access: AccessRequired)
    | AddBannedMember(user: ServiceId, timestamp: nat)
    | DeleteBannedMember(user: ServiceId)
    | PromotePendingPniAciMember(aci: nat, pni: nat, profileKey: ProfileKey)
    | NewInviteLinkAccess(access: AccessRequired)
    | NewRequestingMember(requesting: RequestingMember)
    | DeleteRequestingMember(aci: nat)
    | PromoteRequestingMember(aci: nat, role: Role)
    | NewInviteLinkPassword(password: string)
    | AnnouncementOnly(on: bool)
    | MemberLabel(user: ServiceId, labelEmoji: Option<string>, labelString: Option<string>)
    | NewMemberLabelAccess(access: AccessRequired)
    | TerminateGroup

  function ChangeKind(c: GroupChange): Kind {
    match c
    case NewMember(_) => AddMember
    case RemovedMember(_) => DeleteMember
    case ModifyMemberRole(_, _) => MemberRole
    case ModifyMemberProfileKey(_, _) => MemberProfileKey
    case NewPendingMember(_) => AddPending
    case DeletePendingMember(_) => DeletePending
    case PromotePendingMember(_, _) => PromotePending
    case NewTitle(_) => TitleKind
    case NewAvatar(_) => AvatarKind
    case NewTimer(_) => TimerKind
    case AttributeAccess(_) => AttributesAccess
    case NewDescription(_) => DescriptionKind
    case NewMemberAccess(_) => MemberAccess
    case AddBannedMember(_, _) => AddBanned
    case DeleteBannedMember(_) => DeleteBanned
    case PromotePendingPniAciMember(_, _, _) => PromotePniAci
    case NewInviteLinkAccess(_) => InviteLinkAccess
    case NewRequestingMember(_) => AddRequesting
    case DeleteRequestingMember(_) => DeleteRequesting
    case PromoteRequestingMember(_, _) => PromoteRequesting
    case NewInviteLinkPassword(_) => InviteLinkPassword
    case AnnouncementOnly(_) => Announcements
    case MemberLabel(_, _, _) => MemberLabels
    case NewMemberLabelAccess(_) => MemberLabelAccess
    case TerminateGroup => Terminate
  }

  datatype GroupChanges = GroupChanges(
    groupId: Bytes, editor: nat, version: nat, changes: seq<GroupChange>, changeEpoch: nat)

  // -- the libraries ----------------------------------------------------------------

  /** What one group's secret params do, and the codecs. */
  datatype Zk = Zk(
    groupId: Bytes,
    publicParams: Bytes,
    encryptServiceId: ServiceId -> Bytes,
    decryptServiceId: Bytes -> Result<ServiceId, GroupError>,
    encryptKey: (ProfileKey, nat) -> Bytes,
    decryptKey: (Bytes, nat) -> Result<ProfileKey, GroupError>,
    sealBlob: (Bytes, Bytes) -> Bytes,
    openBlob: Bytes -> Result<Bytes, GroupError>,
    present: (Credential, Bytes) -> Bytes,
    parsePresentation: Bytes -> Result<(Bytes, Bytes), GroupError>,
    encodeBlob: Blob -> Bytes,
    decodeBlob: Bytes -> Option<Option<Blob>>,
    utf8: string -> Bytes,
    fromUtf8: Bytes -> Option<string>,
    base64: Bytes -> string,
    encodeActions: Actions -> Bytes,
    decodeActions: Bytes -> Option<Actions>)

  /** Each decoder undoes its encoder; a sealed blob has room for nonce, tag and padding length. */
  ghost predicate Lawful(z: Zk) {
    && |z.groupId| == GROUP_IDENTIFIER_LEN
    && (forall s {:trigger z.encryptServiceId(s)} :: z.decryptServiceId(z.encryptServiceId(s)) == Ok(s))
    && (forall k, a {:trigger z.encryptKey(k, a)} :: z.decryptKey(z.encryptKey(k, a), a) == Ok(k))
    && (forall r, b {:trigger z.sealBlob(r, b)} :: z.openBlob(z.sealBlob(r, b)) == Ok(b) && |z.sealBlob(r, b)| >= 29)
    && (forall c, r {:trigger z.present(c, r)} ::
          && z.present(c, r) != []
          && z.parsePresentation(z.present(c, r))
             == Ok((z.encryptServiceId(Aci(c.aci)), z.encryptKey(c.profileKey, c.aci))))
    && (forall b {:trigger z.encodeBlob(b)} :: z.decodeBlob(z.encodeBlob(b)) == Some(Some(b)))
    && (forall s {:trigger z.utf8(s)} :: z.fromUtf8(z.utf8(s)) == Some(s))
  }

  /** Protobuf, for one message: decoding undoes encoding. */
  ghost predicate Encodable(z: Zk, a: Actions) {
    z.decodeActions(z.encodeActions(a)) == Some(a)
  }

  // -- enumerations on the wire -----------------------------------------------------

  function RoleNumber(r: Role): int {
    match r
    case Unknown => 0
    case Default => 1
    case Administrator => 2
  }

  function RoleOf(n: int): Result<Role, GroupError> {
    if n == 0 then Ok(Unknown) else if n == 1 then Ok(Default) else if n == 2 then Ok(Administrator) else Err(WrongEnumValue)
  }

  function AccessNumber(a: AccessRequired): int {
    match a
    case UnknownAccess => 0
    case Any => 1
    case Members => 2
    case Administrators => 3
    case Unsatisfiable => 4
  }

  function AccessOf(n: int): Result<AccessRequired, GroupError> {
    if n == 0 then Ok(UnknownAccess) else if n == 1 then Ok(Any) else if n == 2 then Ok(Members)
    else if n == 3 then Ok(Administrators) else if n == 4 then Ok(Unsatisfiable) else Err(WrongEnumValue)
  }

  // -- decoding ---------------------------------------------------------------------

  function DecryptAci(z: Zk, ciphertext: Bytes): Result<nat, GroupError> {
    var id :- z.decryptServiceId(ciphertext);
    if id.Aci? then Ok(id.uuid) else Err(NotAci)
  }

  function DecryptPni(z: Zk, ciphertext: Bytes): Result<nat, GroupError> {
    var id :- z.decryptServiceId(ciphertext);
    if id.Pni? then Ok(id.uuid) else Err(NotPni)
  }

  /** From the presentation when there is one, else from the two plain fields. */
  function DecryptPresentation(z: Zk, userId: Bytes, profileKey: Bytes, presentation: Bytes)
    : Result<(nat, ProfileKey), GroupError>
  {
    if presentation == [] then
      var aci :- DecryptAci(z, userId);
      var key :- z.decryptKey(profileKey, aci);
      Ok((aci, key))
    else
      var parts :- z.parsePresentation(presentation);
      var aci :- DecryptAci(z, parts.0);
      var key :- z.decryptKey(parts.1, aci);
      Ok((aci, key))
  }

  /** A member label: empty input and any failure both read as unset. */
  function DecryptLabel(z: Zk, bytes: Bytes): Option<string> {
    if bytes == [] then None
    else
      match z.openBlob(bytes)
      case Ok(plain) => z.fromUtf8(plain)
      case Err(_) => None
  }

  function DecryptMember(z: Zk, m: EncryptedMember): Result<Member, GroupError> {
    var id :- DecryptPresentation(z, m.userId, m.profileKey, m.presentation);
    var role :- RoleOf(m.role);
    Ok(Member(id.0, role, id.1, m.joinedAtVersion, DecryptLabel(z, m.labelString), DecryptLabel(z, m.labelEmoji)))
  }

  function DecryptPending(z: Zk, m: EncryptedPending): Result<PendingMember, GroupError> {
    if m.member.None? then Err(WrongBlob)
    else
      var address :- z.decryptServiceId(m.member.value.userId);
      var addedBy :- DecryptAci(z, m.addedByUserId);
      var role :- RoleOf(m.member.value.role);
      Ok(PendingMember(address, role, addedBy, m.timestamp))
  }

  function DecryptRequesting(z: Zk, m: EncryptedRequesting): Result<RequestingMember, GroupError> {
    var id :- DecryptPresentation(z, m.userId, m.profileKey, m.presentation);
    Ok(RequestingMember(id.0, id.1, m.timestamp))
  }

  /** Attribute blobs never fail: whatever is absent, short or broken reads as the empty blob. */
  function DecryptBlob(z: Zk, bytes: Bytes): Option<Blob> {
    if |bytes| < 29 then None
    else
      match z.openBlob(bytes)
      case Err(_) => None
      case Ok(plain) => z.decodeBlob(plain).GetOr(None)
  }

  function DecryptTitle(z: Zk, bytes: Bytes): string {
    match DecryptBlob(z, bytes)
    case Some(Title(t)) => t
    case _ => ""
  }

  function DecryptDescription(z: Zk, bytes: Bytes): Option<string> {
    match DecryptBlob(z, bytes)
    case Some(DescriptionText(d)) => if d == "" then None else Some(d)
    case _ => None
  }

  function DecryptTimer(z: Zk, bytes: Bytes): Option<nat> {
    match DecryptBlob(z, bytes)
    case Some(Timer(d)) => Some(d)
    case _ => None
  }

  /** One entry, or None where the entry's `added` is absent and is skipped. */
  function DecryptAction(z: Zk, a: Action): Option<Result<GroupChange, GroupError>> {
    match a
    case AddMemberAction(added) =>
      if added.None? then None else Some(var m :- DecryptMember(z, added.value); Ok(NewMember(m)))
    case DeleteMemberAction(id) => Some(var aci :- DecryptAci(z, id); Ok(RemovedMember(aci)))
    case ModifyMemberRoleAction(id, r) =>
      Some(var aci :- DecryptAci(z, id); var role :- RoleOf(r); Ok(ModifyMemberRole(aci, role)))
    case ModifyMemberProfileKeyAction(id, key, presentation) =>
      Some(var p :- DecryptPresentation(z, id, key, presentation); Ok(ModifyMemberProfileKey(p.0, p.1)))
    case AddPendingAction(added) =>
      if added.None? then None else Some(var m :- DecryptPending(z, added.value); Ok(NewPendingMember(m)))
    case DeletePendingAction(id) => Some(var s :- z.decryptServiceId(id); Ok(DeletePendingMember(s)))
    case PromotePendingAction(id, key, presentation) =>
      Some(var p :- DecryptPresentation(z, id, key, presentation); Ok(PromotePendingMember(Aci(p.0), p.1)))
    case ModifyTitleAction(blob) => Some(Ok(NewTitle(DecryptTitle(z, blob))))
    case ModifyAvatarAction(path) => Some(Ok(NewAvatar(path)))
    case ModifyTimerAction(blob) => Some(Ok(NewTimer(DecryptTimer(z, blob))))
    case ModifyAttributesAccessAction(n) => Some(var access :- AccessOf(n); Ok(AttributeAccess(access)))
    case ModifyDescriptionAction(blob) => Some(Ok(NewDescription(DecryptDescription(z, blob))))
    case ModifyMemberAccessAction(n) => Some(var access :- AccessOf(n); Ok(NewMemberAccess(access)))
    case AddBannedAction(added) =>
      if added.None? then None
      else Some(var s :- z.decryptServiceId(added.value.userId); Ok(AddBannedMember(s, added.value.timestamp)))
    case DeleteBannedAction(id) => Some(var s :- z.decryptServiceId(id); Ok(DeleteBannedMember(s)))
    case PromotePniAciAction(id, p, key) =>
      Some(var aci :- DecryptAci(z, id);
           var pni :- DecryptPni(z, p);
           var k :- z.decryptKey(key, aci);
           Ok(PromotePendingPniAciMember(aci, pni, k)))
    case ModifyInviteLinkAccessAction(n) => Some(var access :- AccessOf(n); Ok(NewInviteLinkAccess(access)))
    case AddRequestingAction(added) =>
      if added.None? then None else Some(var m :- DecryptRequesting(z, added.value); Ok(NewRequestingMember(m)))
    case DeleteRequestingAction(id) => Some(var aci :- DecryptAci(z, id); Ok(DeleteRequestingMember(aci)))
    case PromoteRequestingAction(id, r) =>
      Some(var aci :- DecryptAci(z, id); var role :- RoleOf(r); Ok(PromoteRequestingMember(aci, role)))
    case ModifyInviteLinkPasswordAction(p) => Some(Ok(NewInviteLinkPassword(z.base64(p))))
    case ModifyAnnouncementsOnlyAction(on) => Some(Ok(AnnouncementOnly(on)))
    case ModifyMemberLabelAction(id, emoji, text) =>
      Some(var s :- z.decryptServiceId(id); Ok(MemberLabel(s, DecryptLabel(z, emoji), DecryptLabel(z, text))))
    case ModifyMemberLabelAccessAction(n) => Some(var access :- AccessOf(n); Ok(NewMemberLabelAccess(access)))
    case TerminateGroupAction => Some(Ok(TerminateGroup))
  }

  /** `filter_map` over the entries of one field. */
  function FilterMap<A, B>(f: A -> Option<B>, xs: seq<A>): seq<B> {
    if xs == [] then []
    else
      (match f(xs[0])
       case None => []
       case Some(y) => [y])
      + FilterMap(f, xs[1..])
  }

  function Decryptor(z: Zk): Action -> Option<Result<GroupChange, GroupError>> {
    (a: Action) => DecryptAction(z, a)
  }

  /** The entries of every field, field after field in the order of `kinds`. */
  function Chain<A, B, K(==)>(f: A -> Option<B>, fields: map<K, seq<A>>, kinds: seq<K>): seq<B> {
    if kinds == [] then []
    else (if kinds[0] in fields then FilterMap(f, fields[kinds[0]]) else []) + Chain(f, fields, kinds[1..])
  }

  function Collect<T, E>(results: seq<Result<T, E>>): Result<seq<T>, E> {
    if results == [] then Ok([])
    else
      var first :- results[0];
      var rest :- Collect(results[1..]);
      Ok([first] + rest)
  }

  /** A group identifier of the wrong length is reported before any failing action. */
  function DecryptGroupChange(z: Zk, change: EncryptedChange): Result<GroupChanges, GroupError> {
    match z.decodeActions(change.actions)
    case None => Err(ProtobufDecodeError)
    case Some(a) =>
      var editor :- DecryptAci(z, a.sourceUserId);
      var changes := Collect(Chain(Decryptor(z), a.fields, CHAIN));
      if |a.groupId| != GROUP_IDENTIFIER_LEN then Err(WrongBlob)
      else
        var list :- changes;
        Ok(GroupChanges(a.groupId, editor, a.version, list, change.changeEpoch))
  }

  // -- building ---------------------------------------------------------------------

  /**
    A call of one of the `build_*` functions, with the randomness it draws. The last ones stand for
    entries that this crate only reads, written by other clients with the group's own params.
   */
  datatype Builder =
    | BuildAddMember(aci: nat, key: ProfileKey, role: Role)
    | BuildAddMemberWithCredential(credential: Credential, role: Role, rand: Bytes)
    | BuildRemoveMember(aci: nat)
    | BuildModifyMemberRole(aci: nat, role: Role)
    | BuildAddPendingMember(invitee: ServiceId, addedBy: nat, role: Role)
    | BuildRemovePendingMember(invitee: ServiceId)
    | BuildPromotePendingMember(aci: nat, key: ProfileKey)
    | BuildAddRequestingMember(aci: nat, key: ProfileKey)
    | BuildRemoveRequestingMember(aci: nat)
    | BuildPromoteRequestingMember(aci: nat, role: Role)
    | BuildModifyTitle(title: string, rand: Bytes)
    | BuildModifyDescription(description: string, rand: Bytes)
    | BuildModifyTimer(duration: nat, rand: Bytes)
    | BuildModifyAvatar(path: string)
    | BuildModifyAttributesAccess(access: AccessRequired)
    | BuildModifyMembersAccess(access: AccessRequired)
    | BuildModifyMemberLabelAccess(access: AccessRequired)
    | BuildModifyInviteLinkAccess(access: AccessRequired)
    | BuildModifyMemberLabel(aci: nat, text: Option<string>, emoji: Option<string>, rand: Bytes, rand2: Bytes)
    | BuildModifyAnnouncementsOnly(on: bool)
    | BuildModifyInviteLinkPassword(password: Bytes)
    | OtherMember(credential: Credential, role: Role, version: nat, text: Option<string>, emoji: Option<string>, rand: Bytes, rand2: Bytes)
    | OtherProfileKey(aci: nat, key: ProfileKey)
    | OtherProfileKeyPresented(credential: Credential, rand: Bytes)
    | OtherBan(user: ServiceId, timestamp: nat)
    | OtherUnban(user: ServiceId)
    | OtherPniPromotion(aci: nat, pni: nat, key: ProfileKey)
    | OtherTermination

  function EncryptBlob(z: Zk, b: Blob, rand: Bytes): Bytes {
    z.sealBlob(rand, z.encodeBlob(b))
  }

  /** None and the empty string are both written as no bytes at all. */
  function EncryptLabel(z: Zk, s: Option<string>, rand: Bytes): Bytes {
    if s.None? || s.value == "" then [] else z.sealBlob(rand, z.utf8(s.value))
  }

  function PlainMember(userId: Bytes, key: Bytes, presentation: Bytes, role: Role): EncryptedMember {
    EncryptedMember(userId, key, presentation, RoleNumber(role), 0, [], [])
  }

  function Build(z: Zk, b: Builder): Action {
    match b
    case BuildAddMember(aci, key, role) =>
      AddMemberAction(Some(PlainMember(z.encryptServiceId(Aci(aci)), z.encryptKey(key, aci), [], role)))
    case BuildAddMemberWithCredential(credential, role, rand) =>
      AddMemberAction(Some(PlainMember([], [], z.present(credential, rand), role)))
    case BuildRemoveMember(aci) => DeleteMemberAction(z.encryptServiceId(Aci(aci)))
    case BuildModifyMemberRole(aci, role) => ModifyMemberRoleAction(z.encryptServiceId(Aci(aci)), RoleNumber(role))
    case BuildAddPendingMember(invitee, addedBy, role) =>
      AddPendingAction(Some(EncryptedPending(
        Some(PlainMember(z.encryptServiceId(invitee), [], [], role)), z.encryptServiceId(Aci(addedBy)), 0)))
    case BuildRemovePendingMember(invitee) => DeletePendingAction(z.encryptServiceId(invitee))
    case BuildPromotePendingMember(aci, key) =>
      PromotePendingAction(z.encryptServiceId(Aci(aci)), z.encryptKey(key, aci), [])
    case BuildAddRequestingMember(aci, key) =>
      AddRequestingAction(Some(EncryptedRequesting(z.encryptServiceId(Aci(aci)), z.encryptKey(key, aci), [], 0)))
    case BuildRemoveRequestingMember(aci) => DeleteRequestingAction(z.encryptServiceId(Aci(aci)))
    case BuildPromoteRequestingMember(aci, role) => PromoteRequestingAction(z.encryptServiceId(Aci(aci)), RoleNumber(role))
    case BuildModifyTitle(title, rand) => ModifyTitleAction(EncryptBlob(z, Title(title), rand))
    case BuildModifyDescription(d, rand) => ModifyDescriptionAction(EncryptBlob(z, DescriptionText(d), rand))
    case BuildModifyTimer(d, rand) => ModifyTimerAction(EncryptBlob(z, Timer(d), rand))
    case BuildModifyAvatar(path) => ModifyAvatarAction(path)
    case BuildModifyAttributesAccess(a) => ModifyAttributesAccessAction(AccessNumber(a))
    case BuildModifyMembersAccess(a) => ModifyMemberAccessAction(AccessNumber(a))
    case BuildModifyMemberLabelAccess(a) => ModifyMemberLabelAccessAction(AccessNumber(a))
    case BuildModifyInviteLinkAccess(a) => ModifyInviteLinkAccessAction(AccessNumber(a))
    case BuildModifyMemberLabel(aci, text, emoji, rand, rand2) =>
      ModifyMemberLabelAction(z.encryptServiceId(Aci(aci)), EncryptLabel(z, emoji, rand), EncryptLabel(z, text, rand2))
    case BuildModifyAnnouncementsOnly(on) => ModifyAnnouncementsOnlyAction(on)
    case BuildModifyInviteLinkPassword(p) => ModifyInviteLinkPasswordAction(p)
    case OtherMember(c, role, version, text, emoji, rand, rand2) =>
      AddMemberAction(Some(EncryptedMember(
        z.encryptServiceId(Aci(c.aci)), z.encryptKey(c.profileKey, c.aci), [], RoleNumber(role), version,
        EncryptLabel(z, emoji, rand), EncryptLabel(z, text, rand2))))
    case OtherProfileKey(aci, key) => ModifyMemberProfileKeyAction(z.encryptServiceId(Aci(aci)), z.encryptKey(key, aci), [])
    case OtherProfileKeyPresented(c, rand) => ModifyMemberProfileKeyAction([], [], z.present(c, rand))
    case OtherBan(user, timestamp) => AddBannedAction(Some(EncryptedBanned(z.encryptServiceId(user), timestamp)))
    case OtherUnban(user) => DeleteBannedAction(z.encryptServiceId(user))
    case OtherPniPromotion(aci, pni, key) =>
      PromotePniAciAction(z.encryptServiceId(Aci(aci)), z.encryptServiceId(Pni(pni)), z.encryptKey(key, aci))
    case OtherTermination => TerminateGroupAction
  }

  /** The editor and the group's own identifier are stamped over whatever the actions carried. */
  function Stamped(z: Zk, editor: nat, actions: Actions): Actions {
    actions.(sourceUserId := z.encryptServiceId(Aci(editor)), groupId := z.groupId)
  }

  function EncryptGroupChange(z: Zk, editor: nat, actions: Actions): EncryptedChange {
    EncryptedChange(z.encodeActions(Stamped(z, editor, actions)), [], 0)
  }
}
