/**
 * The types the harness borrows from the routing and safe_crypto crates.
 * Neither crate is part of this model: only the shapes the harness builds,
 * sends and inspects are declared here, and the cryptography behind keys
 * and names is left abstract.
 */
module Routing {
  import opened Common

  /** Network address (`XorName`): 32 bytes. */
  type XorName = seq<Byte>

  const XOR_NAME_LEN: nat := 32

  /** A public signing key, kept as its bytes. */
  type PublicSignKey = seq<Byte>

  /**
   * The public half of a client identity (`safe_crypto::PublicKeys`). Key
   * generation and the hash from keys to network name are not modelled, so
   * an identity is represented by exactly the two observations this core
   * makes of it: its network name (`xor_name()`, also reached as `name()`)
   * and its public signing key (`public_sign_key()`). Any pair is allowed,
   * which treats both observations as uninterpreted functions of the keys.
   */
  datatype PublicKeys = PublicKeys(xorName: XorName, signKey: PublicSignKey)

  /** A full client identity (`SecretKeys`); the secret part is opaque bytes. */
  datatype SecretKeys = SecretKeys(publicKeys: PublicKeys, secret: Bytes)

  /** Routing's generic addressing type `Authority<XorName>`. */
  datatype Authority =
    | ClientManager(name: XorName)
    | NaeManager(name: XorName)
    | NodeManager(name: XorName)
    | ManagedNode(name: XorName)
    | Section(name: XorName)
    | Client(clientPubId: PublicKeys, proxyNodeName: XorName)

  /** `Value`: one entry of a mutable-data record. */
  datatype Value = Value(content: Bytes, entryVersion: U64)

  /** `EntryAction`: one mutation of one entry. */
  datatype EntryAction =
    | Ins(value: Value)
    | Update(value: Value)
    | Del(version: U64)

  /** The version an action expects the entry to take. */
  function ActionVersion(a: EntryAction): U64
  {
    match a
    case Ins(v) => v.entryVersion
    case Update(v) => v.entryVersion
    case Del(n) => n
  }

  datatype Action = Insert | UpdateAction | Delete | ManagePermissions

  /** `PermissionSet`: for each action, allowed (true) or denied (false). */
  type PermissionSet = map<Action, bool>

  datatype User = Anyone | Key(key: PublicSignKey)

  /** `MutableData`: a versioned key/value record. */
  datatype MutableData = MutableData(
    name: XorName,
    tag: U64,
    entries: map<Bytes, Value>,
    permissions: map<User, PermissionSet>,
    version: U64,
    owners: set<PublicSignKey>)

  /**
   * `MutableData::new(name, tag, permissions, data, owners)` for the inputs
   * the harness gives it. The size and owner checks it makes live in routing
   * and are not part of this model; the harness unwraps their outcome.
   */
  function NewMutableData(name: XorName, tag: U64, permissions: map<User, PermissionSet>,
                          entries: map<Bytes, Value>, owners: set<PublicSignKey>): MutableData
  {
    MutableData(name, tag, entries, permissions, 0, owners)
  }

  /** `ImmutableData`: content-addressed bytes (the address hash is not modelled). */
  datatype ImmutableData = ImmutableData(value: Bytes)

  /** The reserved type tag of an account (session) packet. */
  const TYPE_TAG_SESSION_PACKET: U64 := 0

  /** The reserved entry key under which an account packet holds its login data: "Login". */
  const ACC_LOGIN_ENTRY_KEY: Bytes := [76, 111, 103, 105, 110]

  /** `AccountPacket`; the harness only builds the invitation variant. */
  datatype AccountPacket = WithInvitation(invitationString: string, accPkt: Bytes)

  datatype AccountInfo = AccountInfo(mutationsDone: U64, mutationsAvailable: U64)

  /** Message identifier used to correlate a response with its request. */
  type MessageId = nat

  datatype ClientError =
    | AccessDenied
    | NoSuchAccount
    | AccountExists
    | NoSuchData
    | DataExists
    | DataTooLarge
    | NoSuchEntry
    | InvalidEntryActions
    | TooManyEntries
    | InvalidOwners
    | InvalidSuccessor
    | InvalidOperation
    | LowBalance
    | NetworkFull
    | NetworkOther(description: string)
    | InvalidInvitation
    | InvitationAlreadyClaimed

  /** The request (and response) kinds the harness issues. */
  datatype Kind =
    | PutIData
    | GetIData
    | PutMData
    | GetMDataVersion
    | GetMDataShell
    | ListMDataEntries
    | GetMDataValue
    | MutateMDataEntries
    | ListMDataPermissions
    | ListMDataUserPermissions
    | SetMDataUserPermissions
    | DelMDataUserPermissions
    | ChangeMDataOwner
    | GetAccountInfo
    | ListAuthKeysAndVersion
    | InsAuthKey
    | DelAuthKey

  /** A request, with the arguments the harness hands to routing besides destination and id. */
  datatype Request =
    | PutIData(data: ImmutableData)
    | GetIData(name: XorName)
    | PutMData(mdata: MutableData, requester: PublicSignKey)
    | GetMDataVersion(name: XorName, tag: U64)
    | GetMDataShell(name: XorName, tag: U64)
    | ListMDataEntries(name: XorName, tag: U64)
    | GetMDataValue(name: XorName, tag: U64, key: Bytes)
    | MutateMDataEntries(name: XorName, tag: U64, actions: map<Bytes, EntryAction>, requester: PublicSignKey)
    | ListMDataPermissions(name: XorName, tag: U64)
    | ListMDataUserPermissions(name: XorName, tag: U64, user: User)
    | SetMDataUserPermissions(name: XorName, tag: U64, user: User, permissions: PermissionSet,
                              version: U64, requester: PublicSignKey)
    | DelMDataUserPermissions(name: XorName, tag: U64, user: User, version: U64, requester: PublicSignKey)
    | ChangeMDataOwner(name: XorName, tag: U64, newOwners: set<PublicSignKey>, version: U64)
    | GetAccountInfo
    | ListAuthKeysAndVersion
    | InsAuthKey(key: PublicSignKey, version: U64)
    | DelAuthKey(key: PublicSignKey, version: U64)
  {
    /** The kind of response that answers this request. */
    function ResponseKind(): Kind
    {
      match this
      case PutIData(_) => Kind.PutIData
      case GetIData(_) => Kind.GetIData
      case PutMData(_, _) => Kind.PutMData
      case GetMDataVersion(_, _) => Kind.GetMDataVersion
      case GetMDataShell(_, _) => Kind.GetMDataShell
      case ListMDataEntries(_, _) => Kind.ListMDataEntries
      case GetMDataValue(_, _, _) => Kind.GetMDataValue
      case MutateMDataEntries(_, _, _, _) => Kind.MutateMDataEntries
      case ListMDataPermissions(_, _) => Kind.ListMDataPermissions
      case ListMDataUserPermissions(_, _, _) => Kind.ListMDataUserPermissions
      case SetMDataUserPermissions(_, _, _, _, _, _) => Kind.SetMDataUserPermissions
      case DelMDataUserPermissions(_, _, _, _, _) => Kind.DelMDataUserPermissions
      case ChangeMDataOwner(_, _, _, _) => Kind.ChangeMDataOwner
      case GetAccountInfo => Kind.GetAccountInfo
      case ListAuthKeysAndVersion => Kind.ListAuthKeysAndVersion
      case InsAuthKey(_, _) => Kind.InsAuthKey
      case DelAuthKey(_, _) => Kind.DelAuthKey
    }

    /** Reads addressed by data name (they go to that name's NaeManager group). */
    predicate IsDataRead()
    {
      GetIData? || GetMDataVersion? || GetMDataShell? || ListMDataEntries?
      || GetMDataValue? || ListMDataPermissions? || ListMDataUserPermissions?
    }
  }

  /** What a successful response carries, by kind. */
  datatype Reply =
    | Done
    | IDataReply(idata: ImmutableData)
    | MDataReply(mdata: MutableData)
    | VersionReply(version: U64)
    | EntriesReply(entries: map<Bytes, Value>)
    | ValueReply(value: Value)
    | PermissionsReply(permissions: map<User, PermissionSet>)
    | UserPermissionsReply(permissionSet: PermissionSet)
    | AccountInfoReply(info: AccountInfo)
    | AuthKeysReply(keys: set<PublicSignKey>, keysVersion: U64)

  /** The reply type routing's `Response::<kind>` carries for each kind. */
  predicate Fits(kind: Kind, reply: Reply)
  {
    match kind
    case GetIData => reply.IDataReply?
    case GetMDataVersion => reply.VersionReply?
    case GetMDataShell => reply.MDataReply?
    case ListMDataEntries => reply.EntriesReply?
    case GetMDataValue => reply.ValueReply?
    case ListMDataPermissions => reply.PermissionsReply?
    case ListMDataUserPermissions => reply.UserPermissionsReply?
    case GetAccountInfo => reply.AccountInfoReply?
    case ListAuthKeysAndVersion => reply.AuthKeysReply?
    case _ => reply.Done?
  }

  /** `Response::<kind> { res, msg_id }`, untyped. */
  datatype Response = Response(kind: Kind, res: Result<Reply, ClientError>, msgId: MessageId)

  /** A response whose success value has the type its kind carries in routing. */
  type TypedResponse = r: Response | r.res.Ok? ==> Fits(r.kind, r.res.value)
    witness Response(Kind.PutIData, Ok(Done), 0)

  /** The events routing hands to a client (the kinds this harness meets). */
  datatype Event =
    | RequestEvent(src: Authority, dst: Authority)
    | ResponseEvent(response: TypedResponse, src: Authority, dst: Authority)
    | Connected
    | Terminate
    | RestartRequired
}
