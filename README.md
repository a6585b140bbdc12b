# safe_vault test harness — Dafny model

This project models the test-side core of the SAFE vault. It has three parts:

- **Authority value types.** `ClientAuthority` is a client identity plus the proxy node relaying it. `ClientManagerAuthority` is the group that manages a client's account. Both convert into routing's generic `Authority` without losing anything.
- **Workload generators.** These build random byte vectors, immutable data and mutable-data records. They also build batches of entry actions that are consistent with the entry versions of an existing record.
- **The synchronous test client.** It holds a client identity and the `client_manager` that mutation requests go to. It sends requests through routing and matches the next received event against the request it is waiting for.

Files:

| file | module | models |
|---|---|---|
| `common.dfy` | `Common` | bytes, `u64`, `Option`, `Result` |
| `routing.dfy` | `Routing` | the routing and safe_crypto types the harness uses (declarations only) |
| `authority.dfy` | `Authorities` | `src/authority.rs` |
| `random.dfy` | `Random` | the seeded generator, as an oracle |
| `test_utils.dfy` | `TestUtils` | `src/test_utils.rs` |
| `test_client.dfy` | `TestClients` | `src/mock_crust_detail/test_client.rs` |

How the outside world is modelled:

- **The random generator** is an infinite stream of raw draws plus a cursor (`Random.Rng`). Each generator is a function of the stream and returns the advanced generator. Each generator takes its draws in the order the source takes them. There is one exception: the draws that the rand crate's `seq::sample_iter` consumes inside `gen_mutable_data_entry_actions` are not modelled (see the next point). The distribution of the draws is not modelled either.
- **Reservoir sampling.** The rand crate's `seq::sample_iter` is replaced by an oracle, `order`. It lists the record's keys, each once, in the order the sample takes them.
- **Identities.** The real identity is represented by its two observations: its network name and its signing key. The hash that derives a client manager's name from a key is a function-typed parameter.
- **Polling the network.** `poll::nodes_and_client` polls the network until no node makes progress. It is modelled as a parameter `delivered`: the events it leaves in the client's queue.
- **Routing's own `poll()`** answers are the oracle `progress`.
- **Sending.** Each request handed to routing is appended to a log `sent` as (destination, request, message id). This makes the choice of destination observable.
- **Panics.** `panic!` and failed `assert_eq!`/`unwrap!` calls become a `Fatal` outcome.

The client keeps an invariant called `Valid()`:

- `client_manager` is always a `ClientManager` authority.
- Every request sent follows the addressing rule. Data reads go to `NaeManager(name)`. Everything else goes to a `ClientManager` authority. The invariant does not say which one; each sending method's `ensures` names the one bound when it is called.
- Every requester field is the client's own signing key.

Points where the code's behaviour is easy to misread:

- **Batch size.** The action generator can return fewer than `count` actions. Insert candidates that already exist in the record are skipped, and repeated candidates collapse into one map entry. The model proves "at most `count`", not "exactly `count`".
- **Flushing.** Flushing before a request is not standardised. `put_idata_response`, `put_large_sized_idata`, `put_idata_response_with_msg_id`, `put_idata_may_response` and `put_mdata_response` (and so `create_account` and `create_account_with_invitation_response`) do not flush first. All the other waiting requests do. For the ones that do not flush, the model's contracts show that a stale queued event decides the outcome.
- **Owners.** `gen_mutable_data` takes one owner, not a set of owners.
- **Duplicate entry keys.** `gen_mutable_data_entries` does not retry a key collision explicitly. A repeated key overwrites the earlier value, and the loop continues until the map has `num` keys.

## Model

| member | source | states |
|---|---|---|
| `Authorities.ClientNameIgnoresProxy` | src/authority.rs:20-22 | two client authorities with the same identity have the same name, whatever their proxies |
| `Authorities.ClientAuthority.Name` | src/authority.rs:20-22 | the name is that of the identity carried by the converted `Client` authority |
| `Authorities.ClientAuthority.ClientKey` | src/authority.rs:24-26 | the key is the signing key of the identity carried by the converted `Client` authority |
| `Authorities.ClientKeyIsSignKey` | src/authority.rs:24-26 | `client_key()` is exactly the identity's public signing key |
| `Authorities.ClientAuthority.ToAuthority` | src/authority.rs:29-36 | the conversion gives the `Client` variant, and reading a client authority back out of it gives the original |
| `Authorities.AsClientAuthority` | src/authority.rs:29-36 | the inverse of the conversion is defined exactly on the `Client` variant |
| `Authorities.ClientConversionLossless` | src/authority.rs:29-36 | the result carries the same identity and proxy; distinct client authorities convert to distinct authorities |
| `Authorities.ClientConversionOnto` | src/authority.rs:29-36 | every `Client` authority is the conversion of exactly the client authority read out of it |
| `Authorities.ClientManagerAuthority.Name` | src/authority.rs:43-45 | the authority converts to `ClientManager` of exactly this name |
| `Authorities.ManagerNameIsWrapped` | src/authority.rs:43-45 | `name()` returns the wrapped name unchanged |
| `Authorities.ClientManagerAuthority.ToAuthority` | src/authority.rs:48-52 | the conversion gives the `ClientManager` variant, and reading it back gives the original |
| `Authorities.AsClientManagerAuthority` | src/authority.rs:48-52 | the inverse is defined exactly on the `ClientManager` variant |
| `Authorities.ManagerConversionLossless` | src/authority.rs:48-52 | the conversion is `ClientManager(n)` with `n` the authority's `name()`, and it is injective |
| `Authorities.ConversionsDisjoint` | src/authority.rs:29-52 | a client authority and a manager authority never convert to the same authority |
| `Random.GenByte` | src/test_utils.rs:50 | `rng.gen::<u8>()` takes exactly one draw |
| `Random.GenBool` | src/test_utils.rs:121 | `rng.gen::<bool>()` takes exactly one draw |
| `Random.GenRange` | src/test_utils.rs:90-93 | `gen_range(lo, hi)` always lies in `[lo, hi)` and takes one draw |
| `Random.GenRangeReachesAll` | src/test_utils.rs:110 | every value of the range is produced by some draw, so every split of `count` can occur |
| `TestUtils.GenVec` | src/test_utils.rs:49-51 | the vector has exactly `size` bytes, the `i`-th coming from the `i`-th draw, and consumes exactly `size` draws |
| `TestUtils.GenImmutableData` | src/test_utils.rs:54-56 | the immutable data's content has exactly `size` bytes |
| `TestUtils.GenMutableDataEntry` | src/test_utils.rs:89-100 | key length and content length both in `[1, 10)`, version 0; it takes between 4 and 20 draws of the same stream |
| `TestUtils.FillEntriesReachesNum` | src/test_utils.rs:78-86 | whenever the filling loop finishes, it stops at exactly `num` keys, keeps the keys it had, and every entry is shaped as generated |
| `TestUtils.GenMutableDataEntries` | src/test_utils.rs:78-86 | when the stream yields `num` distinct keys, the loop returns exactly `num` entries, all at version 0 with key and content lengths in `[1, 10)` |
| `TestUtils.GenMutableData` | src/test_utils.rs:59-75 | the record has the given tag, owners exactly `{owner}`, no permissions, version 0, a 32-byte name and `num_entries` generated entries |
| `TestUtils.SplitCount` | src/test_utils.rs:110-111 | `modify_count` is at most the draw and at most the key count, and equals one of them, so it is `min(draw, keys)`; `modify_count + insert_count == count` |
| `TestUtils.GenModifyActions` | src/test_utils.rs:118-127 | exactly the first `modify_count` sampled keys get an action, each a delete or an update at the key's version + 1 (updates carry 10 bytes) |
| `TestUtils.AddInsertActions` | src/test_utils.rs:129-137 | `insert_count` 10-byte candidates are drawn; exactly the ones absent from the record get an insert at version 0 with 10 bytes; the earlier modifications are kept unchanged |
| `TestUtils.GenMutableDataEntryActions` | src/test_utils.rs:103-140 | every delete/update targets an existing key at its version + 1 (updates carry 10 bytes); the modified keys are exactly the first `modify_count` sampled keys; `count - modify_count` 10-byte candidates are drawn, and exactly the ones absent from the record are inserted, at version 0 with 10 bytes; at most `count` actions |
| `TestUtils.ShortKeysInsertEveryCandidate` | src/test_utils.rs:129-137 | against a record whose keys are shorter than 10 bytes, as `gen_mutable_data` builds, every candidate becomes an insert, so a positive insert count gives at least one insert |
| `TestUtils.GenClientManagerAuthority` | src/test_utils.rs:159-161 | the authority converts to `ClientManager` of the name derived from the client key |
| `TestUtils.ManagerAuthorityPerKey` | src/test_utils.rs:159-161 | two keys share a manager exactly when their derived names coincide |
| `TestClients.RecvResponse` | src/mock_crust_detail/test_client.rs:35-52 | the call returns exactly when the next event is the response of the expected kind with the request's id (its result is returned), or a termination while oversize is expected (`InvalidOperation`); a success is always the correlated response; anything else, and an empty queue, is fatal |
| `TestClients.ForeignResponseFirstIsFatal` | src/mock_crust_detail/test_client.rs:40 | a response with another id received first is fatal, even if the awaited response is queued behind it |
| `TestClients.RecvResponseSeesOnlyHead` | src/mock_crust_detail/test_client.rs:35 | only the first queued event decides the outcome |
| `TestClients.RecvMayResponse` | src/mock_crust_detail/test_client.rs:270-284 | an empty queue gives `Err("No Response")` |
| `TestClients.MayResponseRelaxesOnlyEmptyQueue` | src/mock_crust_detail/test_client.rs:270-284 | with an event queued, the lenient matching accepts exactly what the strict `PutIData` matching accepts and returns the same; on an empty queue the strict one is fatal and the lenient one returns an error |
| `TestClients.RecvIDataWithSrc` | src/mock_crust_detail/test_client.rs:311-322 | a returned outcome always comes from the correlated `GetIData` response, and a success carries that response's source authority |
| `TestClients.WithSrcAgreesWithStrict` | src/mock_crust_detail/test_client.rs:311-322 | fetching with the source accepts the same events as the strict matching, returns the same errors, and a success carries the reply's data |
| `TestClients.ExpectConnected` | src/mock_crust_detail/test_client.rs:145-148 | connecting succeeds exactly when the next event is `Connected` |
| `TestClients.Unwrap` | src/mock_crust_detail/test_client.rs:164 | unwrapping succeeds exactly on a returned success |
| `TestClients.LeadingTruesPrefix` | src/mock_crust_detail/test_client.rs:126-134 | the counted steps are an all-true prefix, ended by a false step or by the end |
| `TestClients.LeadingTruesUnique` | src/mock_crust_detail/test_client.rs:126-134 | any all-true prefix ended by a false step or by the end has exactly the counted length |
| `TestClients.AccountRecord` | src/mock_crust_detail/test_client.rs:152-165 | the account record has tag `TYPE_TAG_SESSION_PACKET`, owners exactly `{owner}`, no permissions, version 0 and the given entries |
| `TestClients.InvitationEntries` | src/mock_crust_detail/test_client.rs:187-198 | exactly one entry, under `ACC_LOGIN_ENTRY_KEY`, at version 0 |
| `TestClients.InvitationAccountExtendsPlain` | src/mock_crust_detail/test_client.rs:183-207 | the invitation account is the plain account plus exactly one entry, whose content deserialises back to the invitation code |
| `TestClients.TestClient.SigningPublicKey` | src/mock_crust_detail/test_client.rs:648-650 | the key a client authority for this identity reports as `client_key()`, whatever its proxy |
| `TestClients.TestClient.Name` | src/mock_crust_detail/test_client.rs:653-655 | the name of any client authority for this identity |
| `TestClients.TestClient.WithId` | src/mock_crust_detail/test_client.rs:81-111 | a new client keeps its identity, is bound to `ClientManager(name of its identity)`, and has nothing queued or sent |
| `TestClients.TestClient.SetClientManager` | src/mock_crust_detail/test_client.rs:116-118 | `client_manager` becomes `ClientManager(name)`; no other field may change |
| `TestClients.TestClient.TryRecv` | src/mock_crust_detail/test_client.rs:121-123 | returns and removes the oldest queued event, or reports none |
| `TestClients.TestClient.PollOnce` | src/mock_crust_detail/test_client.rs:137-139 | one routing step: its answer and the remaining steps |
| `TestClients.TestClient.Poll` | src/mock_crust_detail/test_client.rs:126-134 | returns the number of true steps before the first false step, and consumes exactly those steps and the false one |
| `TestClients.TestClient.Flush` | src/mock_crust_detail/test_client.rs:657-659 | afterwards the queue is empty, so `try_recv` reports no event |
| `TestClients.TestClient.PollNetwork` | src/mock_crust_detail/test_client.rs:232 | polling the network appends the delivered events to the queue |
| `TestClients.TestClient.Send` | src/mock_crust_detail/test_client.rs:217-222 | records the request with its destination and id; the addressing invariant is kept |
| `TestClients.TestClient.Await` | src/mock_crust_detail/test_client.rs:232-233 | polls, then the outcome is `RecvResponse` of the first queued event, which is consumed |
| `TestClients.TestClient.ManagerResponse` | src/mock_crust_detail/test_client.rs:443-454 | the request (a mutation or an account query) goes to `client_manager`; with a flush first, the outcome depends only on the delivered events |
| `TestClients.TestClient.ReadResponse` | src/mock_crust_detail/test_client.rs:349-365 | the queue is flushed, the request goes to `NaeManager(name)`, and the outcome depends only on the delivered events |
| `TestClients.TestClient.EnsureConnected` | src/mock_crust_detail/test_client.rs:142-149 | polls, then expects `Connected` as the next event |
| `TestClients.TestClient.GenName` | src/mock_crust_detail/test_client.rs:157 | a record name is 32 draws of the client's own generator |
| `TestClients.TestClient.CreateAccount` | src/mock_crust_detail/test_client.rs:152-165 | sends `PutMData` of the empty account record (fresh name, signing key as owner and requester) to `client_manager`, without flushing; an error response is fatal |
| `TestClients.TestClient.ComposeAccountData` | src/mock_crust_detail/test_client.rs:183-207 | the account record with a fresh name and the single login entry |
| `TestClients.TestClient.CreateAccountWithInvitationResponse` | src/mock_crust_detail/test_client.rs:168-175 | sends the invitation account record to `client_manager` and returns the correlated `PutMData` result |
| `TestClients.TestClient.CreateAccountWithInvitation` | src/mock_crust_detail/test_client.rs:178-181 | sends the invitation account record without waiting and returns its id |
| `TestClients.TestClient.PutIData` | src/mock_crust_detail/test_client.rs:210-214 | sends to `client_manager` under the fresh id and returns it |
| `TestClients.TestClient.PutIDataWithMsgId` | src/mock_crust_detail/test_client.rs:217-222 | sends to `client_manager` under the given id |
| `TestClients.TestClient.PutIDataResponse` | src/mock_crust_detail/test_client.rs:225-234 | sends to `client_manager` without flushing; the outcome is the strict matching of the first event, stale ones included |
| `TestClients.TestClient.PutLargeSizedIData` | src/mock_crust_detail/test_client.rs:237-246 | as above, but with oversize expected, so a termination reads as `InvalidOperation` |
| `TestClients.TestClient.PutIDataResponseWithMsgId` | src/mock_crust_detail/test_client.rs:249-259 | as `PutIDataResponse`, under the caller's id |
| `TestClients.TestClient.PutIDataMayResponse` | src/mock_crust_detail/test_client.rs:262-285 | sends to `client_manager`; the outcome is the lenient matching of the first event |
| `TestClients.TestClient.GetIDataResponseWithSrc` | src/mock_crust_detail/test_client.rs:299-323 | flushes, asks `NaeManager(name)`, and the outcome is the with-source matching of the first delivered event |
| `TestClients.TestClient.GetIDataResponse` | src/mock_crust_detail/test_client.rs:288-295 | the with-source fetch, with the source dropped from a success |
| `TestClients.TestClient.PutMData` | src/mock_crust_detail/test_client.rs:326-334 | sends to `client_manager` with the signing key as requester |
| `TestClients.TestClient.PutMDataResponse` | src/mock_crust_detail/test_client.rs:337-346 | sends to `client_manager` without flushing and matches a `PutMData` response |
| `TestClients.TestClient.GetMDataVersionResponse` | src/mock_crust_detail/test_client.rs:349-365 | flushes, asks `NaeManager(name)`, matches `GetMDataVersion` |
| `TestClients.TestClient.GetMDataShellResponse` | src/mock_crust_detail/test_client.rs:368-381 | flushes, asks `NaeManager(name)`, matches `GetMDataShell` |
| `TestClients.TestClient.ListMDataEntriesResponse` | src/mock_crust_detail/test_client.rs:384-400 | flushes, asks `NaeManager(name)`, matches `ListMDataEntries` |
| `TestClients.TestClient.GetMDataValueResponse` | src/mock_crust_detail/test_client.rs:403-420 | flushes, asks `NaeManager(name)`, matches `GetMDataValue` |
| `TestClients.TestClient.MutateMDataEntries` | src/mock_crust_detail/test_client.rs:423-440 | sends the actions to `client_manager` with the signing key as requester |
| `TestClients.TestClient.MutateMDataEntriesResponse` | src/mock_crust_detail/test_client.rs:443-454 | flushes, sends to `client_manager`, matches `MutateMDataEntries` of the delivered events |
| `TestClients.TestClient.ListMDataPermissionsResponse` | src/mock_crust_detail/test_client.rs:457-473 | flushes, asks `NaeManager(name)`, matches `ListMDataPermissions` |
| `TestClients.TestClient.ListMDataUserPermissionsResponse` | src/mock_crust_detail/test_client.rs:476-493 | flushes, asks `NaeManager(name)`, matches `ListMDataUserPermissions` |
| `TestClients.TestClient.SetMDataUserPermissionsResponse` | src/mock_crust_detail/test_client.rs:496-521 | flushes, sends to `client_manager` with the signing key as requester, matches `SetMDataUserPermissions` |
| `TestClients.TestClient.DelMDataUserPermissionsResponse` | src/mock_crust_detail/test_client.rs:524-547 | flushes, sends to `client_manager` with the signing key as requester, matches `DelMDataUserPermissions` |
| `TestClients.TestClient.ChangeMDataOwnerResponse` | src/mock_crust_detail/test_client.rs:550-571 | flushes, sends to `client_manager`, matches `ChangeMDataOwner` |
| `TestClients.TestClient.GetAccountInfoResponse` | src/mock_crust_detail/test_client.rs:575-588 | flushes, asks `client_manager`, matches `GetAccountInfo` |
| `TestClients.TestClient.ListAuthKeysAndVersionResponse` | src/mock_crust_detail/test_client.rs:591-604 | flushes, asks `client_manager`, matches `ListAuthKeysAndVersion` |
| `TestClients.TestClient.DelAuthKey` | src/mock_crust_detail/test_client.rs:607-613 | sends to `client_manager` without waiting |
| `TestClients.TestClient.InsAuthKey` | src/mock_crust_detail/test_client.rs:616-622 | sends to `client_manager` without waiting |
| `TestClients.TestClient.InsAuthKeyResponse` | src/mock_crust_detail/test_client.rs:625-640 | flushes, sends to `client_manager`, matches `InsAuthKey` |
| `TestClients.RebindKeepsIdentity` | src/mock_crust_detail/test_client.rs:102-118 | a new client rebound to another manager keeps its identity and signing key, with nothing queued or sent |

## Left out

- The network and routing setup is not modelled: `Network`, `ServiceHandle`, `mock_crust::make_current`, `Client::new` and the routing config (src/mock_crust_detail/test_client.rs:86-100). `TestClient::new` is `WithId` with freshly generated keys, and key generation is not modelled.
- What routing and the other nodes do with a request is not modelled: there is no routing protocol, no storage, and no scheduling of the simulated network. Their effect on the client is the `delivered` parameter. Routing's own `poll()` answers are the `progress` oracle, and `poll::nodes_and_client` does not consume them in this model.
- Send errors are not modelled. The source unwraps the result of most routing send calls and ignores it for `del_auth_key` and `ins_auth_key`.
- Cryptography and hashing are abstracted: `SecretKeys::new`, `xor_name`, the content address of `ImmutableData`, and `utils::client_name_from_key` (a function-typed parameter). `gen_client_authority` (src/test_utils.rs:142-156) is left out, because it creates keys.
- `serialisation::serialise` of the account packet is a function-typed parameter, and its failure (an `unwrap!`) is not modelled.
- `MutableData::new` is routing's constructor and is taken as total. Its size and owner-count limits, and the panic the harness's `unwrap!` would raise on them, are not part of this model.
- `TYPE_TAG_SESSION_PACKET` (0) and `ACC_LOGIN_ENTRY_KEY` (`"Login"`) are routing constants. They are declared here with those values, and no contract depends on the particular values.
- The distribution of the random generator is not modelled. Neither are the draws that `seq::sample_iter` consumes: the sample is the `order` oracle, and the draws after it are modelled as if the sample had taken none.
- `iterations()` (src/test_utils.rs:39-46) is left out, because it reads an environment variable. `new_routing_node` (src/test_utils.rs:163-172) is routing setup. The `assert_match!` macro, `trace!` logging and `CLIENT_MSG_EXPIRY_DUR_SECS` are not modelled either.
- Routing's `Authority::PrefixSection`, the payload of `ClientError::InvalidEntryActions`, and the payload of `Event::Request` are not modelled.
- The harness's "Constructed/Connected" state is not tracked. Issuing requests before `ensure_connected` is a caller error that the source does not check.
- `TestUtils.GenMutableDataEntries`: termination is proved under a precondition that the stream yields `num` distinct keys within a ghost `fuel` bound. The source would keep drawing forever on a stream that never does.
- `TestUtils.GenMutableDataEntryActions`: requires every entry version of the record to be below `u64::MAX`. The source's `entry_version + 1` would panic on overflow there.
- `TestUtils.GenMutableDataEntryActions`: `count + 1` (src/test_utils.rs:110) is `usize` arithmetic, which overflows at `usize::MAX`. The model's `nat` never overflows.
- `TestUtils.GenMutableDataEntryActions`: which keys the candidates are is not tied to the stream, because the draws `seq::sample_iter` takes before them are not modelled. The contract states their number, their length and which of them are inserted.
- An identity's name is one field, `xorName`. It stands for both `PublicKeys::xor_name()` (src/authority.rs:21) and `public_keys().name()` (src/mock_crust_detail/test_client.rs:102, 654). The source text does not show that these two methods agree; the model assumes they do.
- `TestClients.TestClient.Poll`: an exhausted `progress` oracle reads as "no progress".
- The typed `res` of each `Response::<kind>` is one `Reply` datatype. A `TypedResponse` subset type ties each reply to its kind. The per-kind result types (`u64`, `MutableData`, ...) are reached by the caller through the `Reply` variant.
