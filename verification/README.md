# xCall, modelled and proved in Dafny

xCall carries calls between blockchains. A contract sends a call through one or more connections;
the contract on the other chain opens a proxy request once every listed connection has delivered the
same payload, executes it on demand, and answers calls that carry rollback data. The source then
records a success or lets the rollback be executed. This project models the parts of that system
whose correctness is not visible in any single function, and proves what they promise.

| file | what it models |
|---|---|
| `XCall.dfy`, `XCallRuns.dfy`, `XCallLaws.dfy` | the Soroban contract as transactions over its storage, all its runs, and what each transaction does and leads to |
| `XCallContract.dfy`, `Connection.dfy` | the same contract and the centralized connection as classes that update fields, proved against the transactions |
| `CrossChain.dfy` | two chains, connections with serial numbers and receipts, relayers, reverts and outsiders |
| `RlpFormat.dfy`, `RlpStream.dfy`, `RlpReader.dfy`, `RlpStrict.dfy`, `IntegerCodec.dfy` | the Solana RLP library: format, stream writer, caching reader, what it accepts, integers |
| `SorobanRlp.dfy`, `SorobanMessages.dfy` | the independent Soroban codec and its messages |
| `SorobanWire.dfy`, `WireRuns.dfy` | what a Soroban contract makes of the bytes of another, and two chains that exchange bytes |
| `Messages.dfy`, `Utf8.dfy`, `SolanaMessages.dfy`, `WireFormat.dfy` | the Solana messages, and the two encoders side by side |
| `CwReply.dfy`, `CwFees.dfy` | call and reply slots and fee splitting of the CosmWasm contract |
| `ClusterSignatures.dfy` | the two signature-threshold loops |
| `RelayAggregator.dfy` | the relay aggregator's relayer array and packets |
| `Bytes.dfy`, `Wrappers.dfy` | big-endian numbers, optional values |

`dafny verify dfyconfig.toml` checks everything.

How the model reads:

- A failed transaction leaves the storage as it was, as the hosts guarantee. Entries of temporary
  storage may vanish at any step of a run.
- Hashes are free constructors: equal digests mean equal values. Key recovery is an arbitrary function.
- A panic is a value (`Panicked`, `Panic`) wherever input can cause it, and proved absent where it is a
  matter of calling order.
- The history kept beside the storage (what was issued, delivered, opened, executed) is computed from
  the storage before and after a step and is never read by a step.
- In the two-chain model everybody may call everything. The only assumptions are that relayed
  connections deliver what their peer's log holds, that links are one to one, and that the default
  connection towards the other chain is a relayed one.

Claims that look right and are false of the code are settled by exact conditions:
rollback only after failure (all connections may revert late), cache transparency, item counts and
message fields with bytes behind a list, calls that arrive over bytes otherwise than they were sent,
the Yellow Paper format from 2^32 bytes on, integer round trips with the top bit set, Soroban round
trips with 55-byte lists, the two encoders from 2^127 on and at zero, source comparison with
repeated protocols, replies sent during one-way calls, and the replacement of relayers.

## Model

| member | source | states |
|---|---|---|
| `CrossChain.CrossChainAtomicity` | contracts/soroban/contracts/xcall/src/handle_message.rs:36-134 | Every run of two chains, both directions, whatever outsiders inject, for every call that leaves over distinct connections of which at least one is relayed, or over the default one, and comes in over at least one relayed connection, or the default one if it left over one; the other connections may misbehave: it is opened at most once and executed at most once on the other chain and has one outcome; the source records a success only if the call succeeded there, executes a rollback only if it failed there or every one of its relayed connections (a default one, if none is listed) had its revert accepted, and does at most one of the two |
| `CrossChain.ExecutedAsSent` | contracts/soroban/contracts/xcall/src/execute_call.rs:14-88 | End to end: if a send succeeded and, any number of steps later, the other chain executes a request claiming to be that call over a relayed connection, the dapp gets exactly the sender, account, kind, data and destinations of that send |
| `CrossChain.RevertAfterSuccess` | contracts/soroban/contracts/centralized-connection/src/contract.rs:86-91 | The revert exception is exact: for every choice of distinct sources and protocols, listed or default, equally many or not, relayed or not, through which the call can be delivered at all, and all networks, senders and data, accounts and connections being addresses, there is a run in which the call succeeds on the destination and the source executes its rollback after its connections reverted the number |
| `CrossChain.CanSucceed` | contracts/soroban/contracts/xcall/src/execute_call.rs:57-88 | Atomicity is not empty: for every choice of distinct sources and protocols over which a call can be delivered and answered, there is a run in which it is executed and the source records its success |
| `CrossChain.TwoWaysIn` | contracts/soroban/contracts/xcall/src/handle_message.rs:172-188 | A call without protocols that leaves over two connections can be opened twice, when the destination changes its default connection in between: why atomicity asks for one connection there |
| `CrossChain.ListedTwice` | contracts/soroban/contracts/xcall/src/send_message.rs:75-96 | A call that lists a connection twice can be opened twice: why atomicity asks for distinct sources |
| `CrossChain.WorldRunKeeps` | contracts/soroban/contracts/centralized-connection/src/contract.rs:45-84 | Both contracts' invariants and the log, receipt and result invariants of both directions hold after every run of the two chains |
| `CrossChain.OriginGenuine` | contracts/soroban/contracts/xcall/src/handle_message.rs:36-83 | A proxy request that will answer through a relayed connection stands for a request the other chain really issued; forged requests and forged replies never get that far |
| `CrossChain.WorldGrows` | contracts/soroban/contracts/xcall/src/storage.rs:98-104 | Along any run of the two chains, neither chain takes back an issued call, an opened request, an execution, a success or a rollback |
| `Connection.Connection.Send` | contracts/soroban/contracts/centralized-connection/src/contract.rs:45-67 | An accepted message gets the next serial number and becomes the next entry of the connection's log of the two-chain model; a refused one leaves the counter and the log alone |
| `Connection.Connection.Recv` | contracts/soroban/contracts/centralized-connection/src/contract.rs:69-84 | Only the relayer, and each serial number of a network once: the receipt is kept exactly when the contract takes the message, otherwise receipts and contract storage are unchanged and the reason is reported |
| `Connection.Connection.Relay` | contracts/soroban/contracts/centralized-connection/src/contract.rs:69-84 | Bringing entry k of the peer's log performs exactly the relay step of the two-chain model on the contract's storage and on the receipts, and succeeds exactly when that step changes something |
| `Connection.Connection.RevertMessage` | contracts/soroban/contracts/centralized-connection/src/contract.rs:86-91 | A revert by the relayer has the effect of the failure result of that number, or no effect at all |
| `XCallRuns.RunKeeps` | contracts/soroban/contracts/xcall/src/handle_message.rs:14-188 | Every state reachable by sends, deliveries, reverts, executions, rollbacks, expiry of temporary entries and admin changes satisfies the quorum, record, verdict and request-id invariants; only requests to addresses are executed, only calls with rollback end |
| `XCallRuns.QuorumAccounted` | contracts/soroban/contracts/xcall/src/handle_message.rs:54-68 | Over every run, for a payload with several protocols: the pending list has no repetition, holds only its protocols and is never complete between steps; for each protocol, proxy requests opened for the payload plus one while it is pending never exceed its own deliveries |
| `XCallRuns.RollbackLifecycle` | contracts/soroban/contracts/xcall/src/handle_message.rs:85-134 | Over every run each number ends at most once, in one rollback or one success, and not while its record remains; an enabled or executed rollback is backed by one and the same failure result (or revert) from every connection of the record, a success by one and the same success result |
| `XCallRuns.RollbackAsSent` | contracts/soroban/contracts/xcall/src/execute_call.rs:90-105 | From the send on, in any later state of any run, a record under the call's number holds that send's caller, destination, connections and rollback data; only the enabled flag may change |
| `XCallRuns.SequenceNumbersFresh` | contracts/soroban/contracts/xcall/src/storage.rs:98-104 | A number issued in a run keeps its request for ever, and a later send gets a number never issued before |
| `XCallRuns.ExecutedAtMostOnce` | contracts/soroban/contracts/xcall/src/execute_call.rs:14-88 | A request id that was executed was executed once, keeps its outcome, and at every later point of the run executing it again fails with an invalid request id |
| `XCallRuns.RunGrows` | contracts/soroban/contracts/xcall/src/storage.rs:231-240 | Nothing issued, opened, executed, rolled back or recorded as success is taken back by any continuation of a run |
| `XCallRuns.FullListHasAll` | contracts/soroban/contracts/xcall/src/handle_message.rs:54-68 | A repetition-free list drawn from the protocols that is as long as the protocols contains every one of them: why counting is enough for a quorum |
| `XCallLaws.QuorumOpens` | contracts/soroban/contracts/xcall/src/handle_message.rs:54-83 | A quorum opens: in every run in which its pending list does not expire, a request was opened if and only if all its protocols have delivered it (somebody, if it lists none) and none of them is listed twice |
| `XCallLaws.RequestEffects` | contracts/soroban/contracts/xcall/src/handle_message.rs:54-83 | An accepted delivery leaves the pending list of every other payload as it was; it opens exactly one proxy request, with the request's own fields and its data hashed, and clears its list when all protocols have been heard, and otherwise adds one name to its list |
| `XCallLaws.RequestAccepted` | contracts/soroban/contracts/xcall/src/handle_message.rs:14-53 | A delivery is accepted if and only if it comes from another network, which the request's sender is of, over a listed connection or the default one if none is listed; each other case has its own error |
| `XCallLaws.ExpiryLosesDelivery` | contracts/soroban/contracts/xcall/src/storage.rs:231-240 | Why the list must not expire: with two protocols, expiry between their deliveries leaves the request unopened although both delivered it |
| `XCallLaws.RepeatedNeverOpens` | contracts/soroban/contracts/xcall/src/handle_message.rs:54-68 | A request that lists a protocol twice is never opened, in any run, whoever delivers it |
| `XCallLaws.AgreementConcludes` | contracts/soroban/contracts/xcall/src/handle_message.rs:98-134 | Agreement concludes: in every run in which its pending list does not expire, a result was acted on if and only if all connections of its call have delivered it (somebody, if none is listed) and none of them is listed twice; a success agreed on is the call's verdict and its one success |
| `XCallLaws.ResultAccepted` | contracts/soroban/contracts/xcall/src/handle_message.rs:85-110 | Which results are accepted and with what error each other one is refused; a complete success whose reply comes from another network than the call went to is refused as an invalid reply |
| `XCallLaws.ResultPending` | contracts/soroban/contracts/xcall/src/handle_message.rs:98-110 | An incomplete result adds its sender to its own pending list, and nothing else happens |
| `XCallLaws.ResultEffects` | contracts/soroban/contracts/xcall/src/handle_message.rs:113-160 | A complete success removes its record, is recorded, and opens its reply, if it has one, under the next request id with the reply's own fields over the record's connections; a complete failure enables the record; all other records, lists and requests stay as they were |
| `XCallLaws.ReplyOpenedOnce` | contracts/soroban/contracts/xcall/src/handle_message.rs:119-160 | Over every run each success that carries a reply is the origin of exactly one request id, and the proxy request there is that reply over the connections of the call |
| `XCallLaws.ExecuteEffects` | contracts/soroban/contracts/xcall/src/execute_call.rs:14-88 | Executing a waiting request with its data uses up exactly that request: a one-way call for either outcome of its dapp and silently; a persisted call if and only if its dapp succeeds, silently, and otherwise nothing changes; a call with rollback if and only if there is a way to answer, with one result carrying the outcome per connection |
| `XCallLaws.ExecuteRefused` | contracts/soroban/contracts/xcall/src/execute_call.rs:20-28 | Unknown ids, other data and accounts that are no addresses are refused, each with its own error |
| `XCallLaws.PersistedNeverFails` | contracts/soroban/contracts/xcall/src/execute_call.rs:41-52 | Over every run no persisted call was used up by a dapp that failed |
| `XCallLaws.RollbackEffects` | contracts/soroban/contracts/xcall/src/execute_call.rs:90-105 | A rollback is executed if and only if its record is enabled and its dapp succeeds; then exactly that record is gone; each other case has its own error |
| `XCallLaws.FailedRollbackStays` | contracts/soroban/contracts/xcall/src/execute_call.rs:93-101 | Over every run a rollback whose dapp fails changes neither storage nor history, and an enabled one can be executed afterwards, once |
| `XCallLaws.SendEffects` | contracts/soroban/contracts/xcall/src/send_message.rs:15-126 | A send is accepted if and only if its rollback data has 1 to 1024 bytes and comes from a contract, its encoding has at most 2048 bytes and there is a way; it takes the next number, stores a record exactly if it asks for a rollback, leaves other records alone and hands its request to every connection in order |
| `XCallLaws.SendRefused` | contracts/soroban/contracts/xcall/src/send_message.rs:15-126 | Which error a refused send gets, in the order of the checks |
| `XCallLaws.ExpireEffects` | contracts/soroban/contracts/xcall/src/storage.rs:231-240 | An expired entry is gone and nothing else is |
| `XCallLaws.ForeignOnly` | contracts/soroban/contracts/xcall/src/handle_message.rs:14-34 | Over every run no accepted request claims to come from the contract's own network |
| `XCallContract.Contract.SendCall` | contracts/soroban/contracts/xcall/src/send_message.rs:15-63 | The step-by-step entry point has the effect, result and messages of the transaction function, and a failure after any write restores the whole storage |
| `XCallContract.Contract.ProcessMessage` | contracts/soroban/contracts/xcall/src/send_message.rs:98-126 | A record is stored exactly for calls with rollback that come from a contract with 1 to 1024 bytes of rollback data, with the right error otherwise |
| `XCallContract.Contract.CallConnections` | contracts/soroban/contracts/xcall/src/send_message.rs:75-96 | One message per listed connection in order, or one through the network's default when none is listed; or the missing-default error, or a panic when one of them is not an address |
| `XCallContract.Contract.HandleRequest` | contracts/soroban/contracts/xcall/src/handle_message.rs:36-83 | Reading and writing the pending list and the proxy map step by step refines the quorum transition; a refused request changes nothing |
| `XCallContract.Contract.HandleResult` | contracts/soroban/contracts/xcall/src/handle_message.rs:85-134 | The pending-response, record, success and reply updates refine the result transition, errors included |
| `XCallContract.Contract.HandleReply` | contracts/soroban/contracts/xcall/src/handle_message.rs:136-160 | A reply opens a proxy request over the record's own connections, and only when it comes from the record's network |
| `XCallContract.Contract.HandleMessage` | contracts/soroban/contracts/xcall/src/handle_message.rs:14-34 | Messages claiming to come from the contract's own network are refused; a handler that fails after writing leaves no trace |
| `XCallContract.Contract.HandleError` | contracts/soroban/contracts/xcall/src/handle_message.rs:162-170 | A revert acts exactly like the delivery of an empty failure result of that number |
| `XCallContract.Contract.ExecuteCall` | contracts/soroban/contracts/xcall/src/execute_call.rs:14-88 | The data must match the stored hash and the account be an address; the request is used up, a response goes out only for calls with rollback, and a failed persisted call restores everything so that it can be retried |
| `XCallContract.Contract.ExecuteRollback` | contracts/soroban/contracts/xcall/src/execute_call.rs:90-105 | Only an enabled record is executed and then it is gone; a failing dapp keeps it |
| `XCallContract.Deploy` | contracts/soroban/contracts/xcall/src/handle_message.rs:14-188 | A deployed contract after any sequence of calls, expiries and default changes has the storage and has sent the messages of the run, and all run invariants hold of its own fields: no pending list is complete, a number with a record is no success, request ids are within the counter |
| `XCallContract.Contract.Play` | contracts/soroban/contracts/xcall/src/execute_call.rs:14-105 | Playing any sequence of calls on the fields gives the storage and the messages of the transaction functions played in that order |
| `RlpFormat.EncodeExact` | contracts/solana/libs/rlp/src/stream.rs:397-409 | The library's encoding is the encoding of Appendix B of the Ethereum Yellow Paper (with null as f8 00) if and only if every string and list payload is shorter than 2^32 bytes |
| `RlpFormat.EncodeIsShorter` | contracts/solana/libs/rlp/src/stream.rs:397-465 | The encoding is never longer than the standard one, and of the same length only where it is the same bytes: what a length truncated to 32 bits costs |
| `RlpStream.WriteTree` | contracts/solana/libs/rlp/src/stream.rs:147-361 | For every tree, the pre-order calls of begin_list and append on a fresh stream never panic, leave no list open and produce exactly the recursive encoding |
| `RlpStream.RlpBytes` | contracts/solana/libs/rlp/src/stream.rs:147-163 | Appending a value whose own encoder opens nested lists produces the same bytes: a nested list is counted once in its parent |
| `RlpStream.PreorderAdds` | contracts/solana/libs/rlp/src/stream.rs:213-235 | Playing a tree's pre-order calls on any open stack of lists adds that one tree to the innermost list and closes exactly the lists it completes |
| `RlpStream.RlpStream.NoteAppended` | contracts/solana/libs/rlp/src/stream.rs:335-361 | The close cascade: bytes counted as some items fill the innermost list, and every list thereby completed is closed with the header of its payload and counted as one item of the list around it |
| `RlpStream.RlpStream.Finish` | contracts/solana/libs/rlp/src/stream.rs:335-361 | Closing a list replaces its reserved byte by the header of its payload, so the buffer holds the list's encoding |
| `RlpStream.RlpStream.BeginList` | contracts/solana/libs/rlp/src/stream.rs:213-235 | A list of length zero is written at once and counted; any other opens a frame with one reserved byte |
| `RlpStream.RlpStream.BeginUnboundedList` | contracts/solana/libs/rlp/src/stream.rs:238-245 | Opens a list that no number of items completes |
| `RlpStream.RlpStream.FinalizeUnboundedList` | contracts/solana/libs/rlp/src/stream.rs:368-378 | Closes the innermost unbounded list and counts it once in its parent |
| `RlpStream.RlpStream.Append` | contracts/solana/libs/rlp/src/stream.rs:147-163 | Adds exactly one item, whatever lists the value's own encoder opens and closes, through the finished-list flag |
| `RlpStream.RlpStream.AppendRaw` | contracts/solana/libs/rlp/src/stream.rs:127-134 | Any bytes, counted as any number of items that the open list still takes, become part of the innermost list, and lists completed by the count are closed around them |
| `RlpStream.RlpStream.AppendNull` | contracts/solana/libs/rlp/src/stream.rs:87-104 | Adds one null |
| `RlpStream.RlpStream.InsertSize` | contracts/solana/libs/rlp/src/stream.rs:397-409 | Rotates the minimal big-endian bytes of the size, modulo 2^32, into the buffer at a position, everything else kept in order |
| `RlpStream.RlpStream.InsertListPayload` | contracts/solana/libs/rlp/src/stream.rs:411-423 | The reserved byte before a payload becomes the list header of the given length |
| `RlpStream.RlpStream.EncodeIter` | contracts/solana/libs/rlp/src/stream.rs:429-465 | The bytes of a string, written before their length is known, end up as the string's encoding |
| `RlpStream.RlpStream.Out` | contracts/solana/libs/rlp/src/stream.rs:326-333 | With no open list the result is the given prefix followed by the encodings of all items appended |
| `RlpReader.CacheTransparentIff` | contracts/solana/libs/rlp/src/rlpin.rs:216-255 | After every history of lookups in any order, every lookup answers as a fresh reader would, errors included, if and only if the bytes after the list do not complete its first unreadable item |
| `RlpReader.ExactIsTransparent` | contracts/solana/libs/rlp/src/rlpin.rs:216-255 | Bytes that are exactly one list item are always read transparently |
| `RlpReader.TrailingByteShows` | contracts/solana/libs/rlp/src/rlpin.rs:227-241 | The condition is needed: c1 x y answers lookup 1 with an error when fresh and with y after lookup 0 |
| `RlpReader.CacheAfterOk` | contracts/solana/libs/rlp/src/rlpin.rs:216-255 | After every history the cached offset is the header length plus the size of the first cached-index items |
| `RlpReader.Rlp.At` | contracts/solana/libs/rlp/src/rlpin.rs:216-255 | The lookup through the mutable cache is the cached-reader function, and the plain reader on bytes whose trailing part is harmless |
| `RlpReader.Rlp.Count` | contracts/solana/libs/rlp/src/rlpin.rs:175-188 | On all bytes and after any lookups: the count is the number of items of the region iteration reads; it equals the number of children if and only if iteration stays in the payload, or both readings end in a panic, or neither does and the bytes behind the list complete no item; afterwards the cache stands at the end, and a second count repeats the first |
| `RlpReader.CountAgreesIff` | contracts/solana/libs/rlp/src/rlpin.rs:175-188 | The same condition, of the count functions and for every state of the cache |
| `RlpReader.TrailingByteJoins` | contracts/solana/libs/rlp/src/rlpin.rs:387-396 | For c1 x y iteration yields x and y and the count is two, although the list has one child |
| `RlpReader.CountOfEncode` | contracts/solana/libs/rlp/src/rlpin.rs:175-188 | On an encoded list the count is the number of children |
| `RlpReader.AtOfEncode` | contracts/solana/libs/rlp/src/rlpin.rs:216-255 | On an encoded list, lookup i gives exactly the i-th child's encoding, and past the end the too-short error |
| `RlpReader.TreeOfEncode` | contracts/solana/libs/rlp/src/rlpin.rs:387-460 | Recursive decoding of a tree's encoding returns the tree |
| `RlpReader.ReadTree` | contracts/solana/libs/rlp/src/rlpin.rs:387-396 | Iterating views through their caches, recursively, terminates on all bytes and returns the children of the region iteration reads, and what plain recursive decoding returns wherever trailing bytes are harmless, errors included |
| `RlpReader.TreeAgreesIff` | contracts/solana/libs/rlp/src/rlpin.rs:387-396 | Iterating a list gives the plain reader's tree if and only if iteration stays in the payload, or an item in it does not decode, or what follows the list decodes to no further items |
| `RlpReader.ValueOfEncode` | contracts/solana/libs/rlp/src/rlpin.rs:422-460 | Decoding an encoded string returns the string |
| `RlpReader.InfoOfEncode` | contracts/solana/libs/rlp/src/rlpin.rs:82-100 | The header of an encoded item gives its exact size, whatever bytes follow |
| `RlpReader.PrefixFree` | contracts/solana/libs/rlp/src/rlpin.rs:82-100 | No item's encoding, null included, is a proper prefix of another's |
| `RlpReader.EncodeInjective` | contracts/solana/libs/rlp/src/stream.rs:411-465 | Different trees have different encodings |
| `RlpReader.SplitUnique` | contracts/solana/libs/rlp/src/rlpin.rs:341-351 | A concatenation of encodings splits into items in one way only |
| `RlpReader.SkipOfEncode` | contracts/solana/libs/rlp/src/rlpin.rs:341-351 | Consuming i items of a concatenation stops exactly after the i-th item's encoding, the remaining items untouched |
| `RlpReader.ConsumeItems` | contracts/solana/libs/rlp/src/rlpin.rs:341-351 | The loop skips item by item: it returns the rest and the bytes consumed, or the first item's error |
| `RlpStrict.HeaderExact` | contracts/solana/libs/rlp/src/rlpin.rs:48-102 | On all bytes: the reader finds an item at the front if and only if one is laid out there in the form of Appendix B of the Ethereum Yellow Paper, with the shortest length bytes, or is the library's null |
| `RlpStrict.HeaderErrors` | contracts/solana/libs/rlp/src/rlpin.rs:48-102 | Why there is no item, exactly: a lone f8 panics, length bytes that start with zero, that could have been a short prefix, or that are cut, and a payload that is cut |
| `RlpStrict.StringExact` | contracts/solana/libs/rlp/src/rlpin.rs:422-462 | The reader takes a string from the front of some bytes if and only if they begin with its Yellow Paper encoding: no other form of it is accepted |
| `RlpStrict.ValueForms` | contracts/solana/libs/rlp/src/rlpin.rs:422-462 | What decoding a value makes of bytes that need not be one item, every error included |
| `IntegerCodec.UintRoundTrip` | contracts/solana/libs/rlp/src/impls.rs:161-206 | Encode then decode is the identity for every u128, and for u16, u32 and u64 exactly when the top bit is clear; otherwise decoding reports too big |
| `IntegerCodec.EncodeUint` | contracts/solana/libs/rlp/src/impls.rs:161-185 | The buffer loop writes the signed minimal form below 2^127 and the full sixteen bytes from there on |
| `IntegerCodec.SignedShortest` | contracts/solana/libs/rlp/src/impls.rs:161-185 | No big-endian form of a number with a clear top bit is shorter |
| `IntegerCodec.SignedUnique` | contracts/solana/libs/rlp/src/impls.rs:161-185 | The shortest form with a clear top bit is unique |
| `IntegerCodec.ReadUint` | contracts/solana/libs/rlp/src/impls.rs:187-206 | The accumulator loop reads every width; leading zeros, wrong sizes and lists get the plain decoder's errors |
| `Utf8.Utf8Exact` | contracts/solana/libs/rlp/src/impls.rs:242-252 | Bytes are taken for a string if and only if they encode Unicode scalar values: no overlong forms, no surrogates, nothing cut |
| `SolanaMessages.RequestThere` | contracts/solana/programs/xcall/src/types/request.rs:86-123 | The stream encoder followed by the reader that counts and then visits fields 5, 0, 3, 1, 2, 4 through one cache returns the request when its source address has exactly one slash, and a length error otherwise |
| `SolanaMessages.RequestRoundTrip` | contracts/solana/programs/xcall/src/types/request.rs:86-123 | The same, of the encoded tree and the plain decoder |
| `SolanaMessages.ReadRequest` | contracts/solana/programs/xcall/src/types/request.rs:102-123 | On all bytes the reads in the order 5, 0, 3, 1, 2, 4 through one cache agree with the plain decoder except that the count also sees items behind the list; the result is the plain decoder's if and only if the two counts are equal, or both wrong, or one panics and so do the fields |
| `SolanaMessages.RequestReadIff` | contracts/solana/programs/xcall/src/types/request.rs:102-139 | A request is read from some bytes if and only if they are a list of six fields, each read as that field is written, with one slash in the sender and a type from zero to two |
| `SolanaMessages.RequestTypePanics` | contracts/solana/programs/xcall/src/types/request.rs:102-139 | A type from three on makes the program panic |
| `SolanaMessages.ResultReadIff` | contracts/solana/programs/xcall/src/types/result.rs:76-102 | A result is read if and only if its number and a code of zero or one are; other codes are refused; a missing or malformed message counts as empty |
| `SolanaMessages.WrapperReadIff` | contracts/solana/programs/xcall/src/types/message.rs:58-102 | A wrapper is read if and only if it is a list of two fields, a type of one or two and a payload; the refusals have their errors |
| `SolanaMessages.EnvelopeReadIff` | contracts/solana/libs/xcall-lib/src/message/envelope.rs:36-71 | An envelope is read if and only if its type, its message under that type and its two lists are; other types panic |
| `SolanaMessages.RequestAccepted` | contracts/solana/programs/xcall/src/types/request.rs:102-123 | A request the program accepts is what the plain decoder reads, if and only if the plain count does not panic |
| `SolanaMessages.FiveAndOne` | contracts/solana/programs/xcall/src/types/request.rs:102-123 | A five-item list with one readable item behind it passes the count of six and is then refused by the lookup of item 5, with that lookup's error instead of the length error |
| `SolanaMessages.EncodeRequest` | contracts/solana/programs/xcall/src/types/request.rs:86-100 | The stream calls write the tree of the six fields in wire order |
| `SolanaMessages.ResultRoundTrip` | contracts/solana/programs/xcall/src/types/result.rs:66-86 | Every result decodes back to itself |
| `SolanaMessages.ReadResult` | contracts/solana/programs/xcall/src/types/result.rs:76-86 | On all bytes the cached reads agree with the plain decoder except that the message is looked up among all bytes after the header; the result is the plain decoder's if and only if the head fails, or the message lies in the payload, or what follows the payload is no non-empty string and panics like its end |
| `SolanaMessages.MessageFromBehind` | contracts/solana/programs/xcall/src/types/result.rs:76-86 | Every result cut before its message, with the message behind the list, is read whole, and with an empty message by the plain decoder |
| `SolanaMessages.EncodeResult` | contracts/solana/programs/xcall/src/types/result.rs:66-74 | The stream calls write the tree of the three fields |
| `SolanaMessages.WrapperRoundTrip` | contracts/solana/programs/xcall/src/types/message.rs:47-75 | Every wrapper decodes back to itself |
| `SolanaMessages.ReadWrapper` | contracts/solana/programs/xcall/src/types/message.rs:58-75 | On all bytes the cached reads agree with the plain decoder except that the count and the payload see items behind the list; the result is the plain decoder's if and only if the two counts are equal or both wrong |
| `SolanaMessages.PayloadFromBehind` | contracts/solana/programs/xcall/src/types/message.rs:58-75 | Every wrapper cut after its type, with the payload behind the list, is accepted whole, and refused by the plain decoder |
| `SolanaMessages.EnvelopeThere` | contracts/solana/libs/xcall-lib/src/message/envelope.rs:20-71 | Encoding an envelope, message inside, and reading both layers through caches returns the envelope |
| `SolanaMessages.EnvelopeRoundTrip` | contracts/solana/libs/xcall-lib/src/message/envelope.rs:20-71 | The same, of the encoded trees and the plain decoders |
| `SolanaMessages.ReadEnvelope` | contracts/solana/libs/xcall-lib/src/message/envelope.rs:36-71 | On all bytes the cached reads of both layers agree with the plain decoders except that fields after the first see items behind the list; the result is the plain decoder's if and only if the plain decoder finds every field it looks up, or the first lookup that fails ends with the same error in the payload and behind it, or the plain lookup panics and the program finds all fields, one of them a list of strings that panics |
| `SolanaMessages.LookupsAgreeIff` | contracts/solana/libs/rlp/src/rlpin.rs:204-260 | Counting the items behind a list changes no lookup of the list, its error included, if and only if the first item that cannot be read stays so, with the same error, when the bytes behind are added |
| `SolanaMessages.EnvelopeAccepted` | contracts/solana/libs/xcall-lib/src/message/envelope.rs:36-71 | What the plain decoder accepts the program accepts alike; what the program accepts is what the plain decoder reads if and only if all four fields, and the rollback data, lie in their payloads |
| `SolanaMessages.DestinationsFromBehind` | contracts/solana/libs/xcall-lib/src/message/envelope.rs:36-71 | Every envelope cut before its destinations, with them behind the list, is accepted whole, and refused by the plain decoder |
| `SolanaMessages.AnyMessageAgreesIff` | contracts/solana/libs/xcall-lib/src/message/envelope.rs:56-71 | A message is decoded as by the plain decoder if and only if its rollback data, when looked up, lies in the payload or the bytes behind the list are harmless |
| `SolanaMessages.AnyMessageRoundTrip` | contracts/solana/libs/xcall-lib/src/message/envelope.rs:56-71 | Each kind of message decodes back to itself under its own type |
| `SorobanRlp.ListOfEncode` | contracts/soroban/libs/soroban-rlp/src/decoder.rs:43-101 | On every encoded list the list decoder returns the children's contents, except that a payload of exactly 55 bytes reads as no children and a child list of exactly 55 bytes panics |
| `SorobanRlp.ReadList` | contracts/soroban/libs/soroban-rlp/src/decoder.rs:43-101 | The index loop splits the payload entry by entry, stopping at the first entry that panics |
| `SorobanRlp.DecodeOfEncode` | contracts/soroban/libs/soroban-rlp/src/decoder.rs:4-41 | A string decodes back to itself |
| `SorobanRlp.DecodeFixed` | contracts/soroban/libs/soroban-rlp/src/decoder.rs:4-41 | Decoding an already decoded value leaves it alone exactly when it is not empty and starts below 80 |
| `SorobanRlp.DecodeShort` | contracts/soroban/libs/soroban-rlp/src/decoder.rs:4-41 | Every short prefix, of a string or a list, is taken off, and what follows the payload is ignored |
| `SorobanRlp.DecodeLong` | contracts/soroban/libs/soroban-rlp/src/decoder.rs:4-41 | So is every long prefix of up to eight length bytes, leading zeros and short lengths included |
| `SorobanRlp.DecodePanics` | contracts/soroban/libs/soroban-rlp/src/decoder.rs:4-41 | Decoding panics if and only if there is nothing, or length bytes or payload are cut |
| `SorobanRlp.ListPayloadForms` | contracts/soroban/libs/soroban-rlp/src/decoder.rs:43-125 | What is taken for the payload of a list, on all bytes: as many bytes as announced, counted from the end, or a panic |
| `SorobanRlp.EntryLong` | contracts/soroban/libs/soroban-rlp/src/decoder.rs:66-117 | An entry with a long prefix of any length bytes: strings lose the prefix, lists keep it |
| `SorobanRlp.EncodeBytes` | contracts/soroban/libs/soroban-rlp/src/encoder.rs:4-18 | The encoder writes the common string encoding |
| `SorobanRlp.EncodeList` | contracts/soroban/libs/soroban-rlp/src/encoder.rs:20-39 | The loop writes the list header and the entries in order |
| `SorobanRlp.EncodeLength` | contracts/soroban/libs/soroban-rlp/src/encoder.rs:41-55 | For every 64-bit length the prefix is that of Appendix B of the Ethereum Yellow Paper, and below 2^32 also the stream writer's |
| `SorobanRlp.TruncateZeros` | contracts/soroban/libs/soroban-rlp/src/utils.rs:39-54 | The loop returns the minimal big-endian form of the same number |
| `SorobanRlp.ToSigned` | contracts/soroban/libs/soroban-rlp/src/utils.rs:22-37 | A zero byte goes in front exactly when the minimal form has its top bit set |
| `SorobanRlp.BytesToUint` | contracts/soroban/libs/soroban-rlp/src/utils.rs:56-78 | The shift-and-or loop computes the number modulo the width |
| `SorobanRlp.SliceVector` | contracts/soroban/libs/soroban-rlp/src/utils.rs:80-91 | The loop copies the slice, or panics when it reaches past the end |
| `SorobanMessages.RequestRoundTripIff` | contracts/soroban/contracts/xcall/src/types/request.rs:77-112 | A request decodes back to itself if and only if its number is not zero, its type is below 128, both addresses are non-empty and start below 80, and neither list has a payload of exactly 55 bytes |
| `SorobanMessages.ResultRoundTripIff` | contracts/soroban/contracts/xcall/src/types/result.rs:66-92 | A result decodes back to itself if and only if its number is not zero and its payload is not 55 bytes |
| `SorobanMessages.WrapperRoundTripIff` | contracts/soroban/contracts/xcall/src/types/message.rs:64-86 | A wrapper decodes back to itself if and only if its payload is not 55 bytes |
| `SorobanMessages.SnRoundTrip` | contracts/soroban/libs/soroban-rlp/src/decoder.rs:141-147 | Every number but zero survives the second decode; zero panics |
| `SorobanMessages.NumberForms` | contracts/soroban/libs/soroban-rlp/src/decoder.rs:141-147 | A number of one byte is that byte, whatever it is; any other is decoded once more and cut to 128 bits |
| `SorobanMessages.RequestReadIff` | contracts/soroban/contracts/xcall/src/types/request.rs:91-112 | A request is read if and only if its six fields are; any other number of fields is refused |
| `SorobanMessages.ResultReadIff` | contracts/soroban/contracts/xcall/src/types/result.rs:77-93 | A result is read if and only if its three fields are and its code is zero or one; other codes panic |
| `SorobanMessages.WrapperReadIff` | contracts/soroban/contracts/xcall/src/types/message.rs:73-95 | A wrapper is read if and only if its two fields are and its type is one or two; other types panic |
| `SorobanMessages.EncodeRequest` | contracts/soroban/contracts/xcall/src/types/request.rs:77-89 | The functional encoder writes the encoding of the same six-field tree |
| `SorobanMessages.EncodeResult` | contracts/soroban/contracts/xcall/src/types/result.rs:66-75 | The functional encoder writes the encoding of the three-field tree |
| `SorobanMessages.EncodeWrapper` | contracts/soroban/contracts/xcall/src/types/message.rs:64-71 | The functional encoder writes the encoding of the two-field tree |
| `WireFormat.EncodeRequestTwice` | contracts/soroban/contracts/xcall/src/types/request.rs:77-89 | The Solana stream encoder and the Soroban functional encoder give the same bytes for a request if and only if 1 <= sn < 2^127 |
| `WireFormat.EncodeResultTwice` | contracts/soroban/contracts/xcall/src/types/result.rs:66-75 | The same for results |
| `WireFormat.EncodeWrapperTwice` | contracts/soroban/contracts/xcall/src/types/message.rs:64-71 | Both encoders give the same bytes for every wrapper |
| `WireFormat.SameInteger` | contracts/soroban/libs/soroban-rlp/src/utils.rs:22-37 | The two integer encoders agree on exactly the numbers from 1 below 2^127 |
| `WireFormat.FiftyFiveIsLost` | contracts/soroban/libs/soroban-rlp/src/decoder.rs:66-108 | Every wrapper around 53 bytes is read back by the Solana reader and refused by the Soroban one, although both encoders write the same bytes |
| `WireRuns.WireAtomicity` | contracts/soroban/contracts/xcall/src/handle_message.rs:14-134 | Cross-chain atomicity when connections carry the encoded messages and each contract handles what it decodes, call by call: in every run in which both counters stay below 2^128, each call of either chain is atomic unless it is a call with rollback that decodes to another request to an account that is an address; whatever happens to all other calls |
| `WireRuns.LostNeverArrives` | contracts/soroban/contracts/xcall/src/handle_message.rs:36-83 | In every such run, a call that is lost (its bytes do not decode, or decode to a sender of another network) is never opened, never recorded as a success, and rolled back only if its relayed connections reverted it |
| `WireRuns.AlteredCallSucceeds` | contracts/soroban/contracts/xcall/src/execute_call.rs:14-88 | The condition is exact: after any run, when the contract accepts a call with rollback over one relayed connection that decodes to another request to an address, the run has a continuation after which that call is recorded as a success though never opened as it was sent, so it is not atomic |
| `WireRuns.AlteredInAnyShape` | contracts/soroban/contracts/xcall/src/handle_message.rs:36-134 | The condition is exact for every shape: for all distinct sources and protocols, listed or default, equally many or not, relayed or not, over which the call can be delivered and answered at all, there is a run over bytes in which an altered call is recorded as a success though never opened as it was sent |
| `WireRuns.RunLifts` | contracts/soroban/contracts/centralized-connection/src/contract.rs:69-84 | The converse of WireRunIs where nothing is lost: from matching states, any run over messages without further sends is a run over bytes, and the states still match |
| `WireRuns.EncodedAccountIsAltered` | contracts/soroban/contracts/xcall/src/types/request.rs:91-112 | Such calls: with an account b8 38 followed by an address of 56 characters, and nothing else wrong, a call with rollback decodes to the same call to that address |
| `WireRuns.WireRunIs` | contracts/soroban/contracts/xcall/src/send_message.rs:44-56 | Every run over bytes has a run over messages, with no more steps, in which every call was sent as it decodes on the other side: the two end with equal storage, receipts, reverts and history but for the senders and accounts that calls and records mention, and with logs that match entry by entry |
| `SorobanWire.TravelsIff` | contracts/soroban/contracts/xcall/src/handle_message.rs:26-45 | A request within the contract's size limit is decoded by the other contract as it was sent if and only if its number is not zero, its sender and account start with an ASCII byte, none of the three lists is exactly 55 bytes, and its sender's network holds no separator and the whole at most 255 bytes |
| `SorobanWire.ResultTravels` | contracts/soroban/contracts/xcall/src/execute_call.rs:62-64 | Every result the contract sends is decoded as it was sent |
| `SorobanWire.WireFits` | contracts/soroban/contracts/xcall/src/send_message.rs:45-47 | A message within the contract's size limit never reaches the codec's own limits |
| `SorobanWire.FiftyFiveIsLost` | contracts/soroban/libs/soroban-rlp/src/decoder.rs:43-117 | A call whose request, protocols or wrapper is a list of exactly 55 bytes is not decoded at all |
| `SorobanWire.DecodedIs` | contracts/soroban/contracts/xcall/src/types/request.rs:91-112 | What the other contract decodes a request within the limits to: nothing if one of the three lists is exactly 55 bytes, the number is zero, sender or account is not decodable text or the sender cannot be taken apart; otherwise the same number, type, data and protocols, and sender and account decoded once more |
| `SorobanWire.AccountDecides` | contracts/soroban/contracts/xcall/src/types/request.rs:91-112 | For a request with nothing else wrong the account decides: it arrives with the account decoded once more, or not at all if that fails, and so as it was sent if and only if the account starts with an ASCII byte |
| `SorobanWire.EncodedAccount` | contracts/soroban/libs/soroban-rlp/src/decoder.rs:4-41 | An account b8 38 and 56 bytes is decoded to those 56 bytes |
| `SorobanWire.ImageIsItself` | contracts/soroban/contracts/xcall/src/handle_message.rs:36-47 | The other contract takes a request as it was sent if and only if nothing is wrong with it in the sense of TravelsIff |
| `SorobanWire.SplitJoinIff` | contracts/soroban/libs/soroban-xcall-lib/src/network_address.rs:17-28 | A network address is taken apart into its own parts if and only if the network holds no separator and the whole has at most 255 bytes |
| `SorobanWire.GetParts` | contracts/soroban/libs/soroban-xcall-lib/src/network_address.rs:56-79 | The byte loop splits at the first separator, or panics when there is none or the text is too long |
| `CwReply.ReplyDiscipline` | contracts/cosmwasm-vm/cw-xcall/src/execute_call.rs:35-140 | Inside a dapp call of any run, after any nested calls: it is the only call in flight and its request is unchanged; no other execution can start; a kept reply was offered for the call's source network over, for repetition-free protocols, a permutation of them |
| `CwReply.SlotsEmptyBetween` | contracts/cosmwasm-vm/cw-xcall/src/state.rs:337-393 | Between transactions of any run no call is in flight and no reply is kept, and no request id was committed twice |
| `CwReply.ExecutedOnce` | contracts/cosmwasm-vm/cw-xcall/src/execute_call.rs:69-140 | An executed request id stays executed exactly once in every continuation, and executing it again fails whatever happens inside |
| `CwReply.FailedCall` | contracts/cosmwasm-vm/cw-xcall/src/execute_call.rs:69-140 | A failed persisted call undoes everything; a failed plain call uses up its request, sends no answer and leaves nothing of what its dapp did; a failed call with rollback goes through exactly when the connections take the answer, and then a failure answer without a reply is recorded and the request used up |
| `CwReply.AnsweredExactly` | contracts/cosmwasm-vm/cw-xcall/src/execute_call.rs:112-133 | Over every run an executed request has exactly one answer, with its number and outcome, if it is a call with rollback, and none otherwise |
| `CwReply.EverySendAccounted` | contracts/cosmwasm-vm/cw-xcall/src/send_call_message.rs:95-102 | Over every run, for every message accepted at any depth: exactly one of handed to connections, carried by an answer, dropped. It is carried if and only if it was the first message sent back during a call with rollback, to the call's network, over as many connections as the call has protocols and these among them, and asked for no rollback, and then it is in that call's success answer; it is dropped if and only if all this holds of a call without rollback |
| `CwReply.OneWayReplyIsLost` | contracts/cosmwasm-vm/cw-xcall/src/execute_call.rs:79-113 | For every one-way request and every dapp that sends back to its source over its protocols: the message is accepted and numbered, goes to no connection and into no answer |
| `CwReply.RollbackReplyIsCarried` | contracts/cosmwasm-vm/cw-xcall/src/send_call_message.rs:95-179 | The message a dapp sends back during a call with rollback, over its protocols, is in the one answer there is and is handed to no connection |
| `CwReply.FailedCalls` | contracts/cosmwasm-vm/cw-xcall/src/execute_call.rs:35-67 | Exactly which calls fail, and that they leave no trace: failing checks or connections unless the message is kept, unknown requests, other data, a call during a call |
| `CwReply.EqualIsPermutation` | contracts/cosmwasm-vm/cw-xcall/src/send_call_message.rs:181-191 | For repetition-free protocols the comparison accepts exactly the permutations |
| `CwReply.ComparisonExact` | contracts/cosmwasm-vm/cw-xcall/src/send_call_message.rs:181-191 | The comparison accepts exactly the permutations, for all sources, if and only if no protocol is repeated |
| `CwReply.RepetitionHides` | contracts/cosmwasm-vm/cw-xcall/src/send_call_message.rs:181-191 | Whenever a protocol is repeated, replacing its second occurrence by any other address passes the comparison and is no permutation |
| `CwReply.CompareLists` | contracts/cosmwasm-vm/cw-xcall/src/send_call_message.rs:181-191 | The scan finds whether the lengths agree and every protocol occurs among the sources |
| `CwReply.Contract.SendCall` | contracts/cosmwasm-vm/cw-xcall/src/send_call_message.rs:56-156 | Keeps a reply instead of sending when the call in flight is answered, sends otherwise; nested connection calls included, a failure restores everything |
| `CwReply.Contract.ExecuteCall` | contracts/cosmwasm-vm/cw-xcall/src/execute_call.rs:35-67 | Storing the request id, running the dapp with arbitrary nested calls that are undone on failure, and answering has the effect of the transaction function |
| `CwReply.Contract.ExecuteCallReply` | contracts/cosmwasm-vm/cw-xcall/src/execute_call.rs:69-140 | Empties both slots and uses up the request; a call with rollback is answered, with the reply if it succeeded; the reply of any other call is dropped; a retryable call that failed fails as a whole |
| `CwReply.Contract.StoreCallbackData` | contracts/cosmwasm-vm/cw-xcall/src/state.rs:337-354 | A second call cannot take the slot of the one in flight |
| `CwReply.Contract.PopCallReply` | contracts/cosmwasm-vm/cw-xcall/src/state.rs:389-393 | Returns the kept reply and empties the slot |
| `CwReply.Contract.Perform` | contracts/cosmwasm-vm/cw-xcall/src/execute_call.rs:35-140 | Any call of the contract, with everything nested in it, does to the mutable storage what the transaction function says |
| `CwFees.SendCall` | contracts/cosmwasm-vm/cw-xcall/src/send_call_message.rs:104-153 | A send goes through exactly when every connection quotes, nothing overflows and the amount paid covers the quoted total; then each connection gets its quote, and connection funds plus the handler's transfer are exactly what was paid, the handler getting at least the protocol fee; each failure has its exact condition: no connection, a failed query before an overflow, an overflow, too little paid |
| `CwFees.GetFee` | contracts/cosmwasm-vm/cw-xcall/src/fees.rs:41-65 | A reply is free; otherwise the quote is the protocol fee plus the sum of the quotes of the listed connections or of the default one, with the error of a missing default, a failed query or a sum that does not fit |
| `CwFees.QuotesMean` | contracts/cosmwasm-vm/cw-xcall/src/fees.rs:57-63 | The quotes are there if and only if every connection quotes, each in its place |
| `CwFees.PaidMeans` | contracts/cosmwasm-vm/cw-xcall/src/fees.rs:67-76 | Payment counts the coins of the one denomination, all of them, each once |
| `CwFees.TotalPaid` | contracts/cosmwasm-vm/cw-xcall/src/fees.rs:67-76 | The loop sums the coins of the native denomination, or panics on overflow |
| `CwFees.Spend` | contracts/cosmwasm-vm/cw-xcall/src/send_call_message.rs:110-131 | The loop charges each source its own quote and keeps the running total, failing exactly when a quote fails or the total overflows |
| `ClusterSignatures.VerifyEarlyExit` | contracts/cosmwasm-vm/cw-cluster-connection/src/helper.rs:118-162 | For 65-byte signatures and a threshold of at least one, the early-exit loop accepts exactly when the distinct validators recovered reach the threshold; a zero threshold still asks for one; on any signatures, what comes first decides, enough validators or a signature of another size |
| `ClusterSignatures.VerifyFullScan` | contracts/soroban/contracts/cluster-connection/src/helpers.rs:59-99 | The scan aborts exactly when there are enough signatures to start and some recovery fails; otherwise it answers whether the distinct validators recovered reach the threshold |
| `ClusterSignatures.SignerByCode` | contracts/cosmwasm-vm/cw-cluster-connection/src/helper.rs:130-145 | Whose signature it is: a code below 27 is used as it is, a code v + 27 as v, and anything but 65 bytes is nobody's |
| `ClusterSignatures.OrderAndRepetition` | contracts/cosmwasm-vm/cw-cluster-connection/src/helper.rs:118-162 | The validators counted depend only on which signatures are present, not on order or repetition |
| `ClusterSignatures.BothAgree` | contracts/soroban/contracts/cluster-connection/src/helpers.rs:59-99 | When every recovery succeeds and the threshold is at least one, both versions accept the same inputs |
| `RelayAggregator.ReplacementExact` | contracts/javascore/aggregator/src/main/java/relay/aggregator/RelayAggregator.java:94-116 | Replacing the relayers keeps every new one and admits nobody outside old plus new; the result is exactly the new set if and only if the array's tail, as far as there are relayers to go, holds only relayers that stay |
| `RelayAggregator.SweepCleanIff` | contracts/javascore/aggregator/src/main/java/relay/aggregator/RelayAggregator.java:104-109 | The removal loop, which steps past the relayer swapped in, removes everyone who is to go if and only if that tail condition holds |
| `RelayAggregator.LeftOver` | contracts/javascore/aggregator/src/main/java/relay/aggregator/RelayAggregator.java:104-109 | Replacing any a, b, c by a leaves c in place |
| `RelayAggregator.AddedBehind` | contracts/javascore/aggregator/src/main/java/relay/aggregator/RelayAggregator.java:269-274 | Newcomers come after the relayers already there, in the order given |
| `RelayAggregator.Aggregator.SubmitAll` | contracts/javascore/aggregator/src/main/java/relay/aggregator/RelayAggregator.java:149-206 | After any sequence of submissions by anybody of any packets, a packet is acknowledged if and only if it was before, or a registered relayer newly signed it and at least the threshold of registered relayers has signed it |
| `RelayAggregator.SignedOk` | contracts/javascore/aggregator/src/main/java/relay/aggregator/RelayAggregator.java:205-222 | The signers counted are distinct, and are exactly the registered relayers with a signature; the collected signatures are theirs, in order |
| `RelayAggregator.Aggregator.SetRelayers` | contracts/javascore/aggregator/src/main/java/relay/aggregator/RelayAggregator.java:94-116 | All or nothing, by the admin with a threshold between one and the resulting number of relayers; array and lookup agree and have no repetition afterwards |
| `RelayAggregator.Aggregator.SetSignatureThreshold` | contracts/javascore/aggregator/src/main/java/relay/aggregator/RelayAggregator.java:72-77 | Takes effect exactly for the admin and a threshold between one and the number of relayers |
| `RelayAggregator.Aggregator.AddRelayer` | contracts/javascore/aggregator/src/main/java/relay/aggregator/RelayAggregator.java:269-274 | A newcomer is appended once; array and lookup keep agreeing |
| `RelayAggregator.Aggregator.RemoveRelayer` | contracts/javascore/aggregator/src/main/java/relay/aggregator/RelayAggregator.java:276-287 | Swap-remove takes out exactly that relayer; array and lookup keep agreeing |
| `RelayAggregator.Aggregator.SubmitPacket` | contracts/javascore/aggregator/src/main/java/relay/aggregator/RelayAggregator.java:149-203 | Only relayers, each once per packet; the packet is acknowledged exactly when the registered signers reach the current threshold, never twice, with those signers' signatures; signatures and registration of every other packet stay as they were, and of the acknowledged one only signatures of former relayers remain |
| `RelayAggregator.Aggregator.ThresholdReached` | contracts/javascore/aggregator/src/main/java/relay/aggregator/RelayAggregator.java:289-299 | The counting loop compares the number of registered signers with the threshold |
| `RelayAggregator.Aggregator.GetSignatures` | contracts/javascore/aggregator/src/main/java/relay/aggregator/RelayAggregator.java:205-222 | The loop collects the registered signers' signatures in array order |
| `RelayAggregator.Aggregator.RemovePacket` | contracts/javascore/aggregator/src/main/java/relay/aggregator/RelayAggregator.java:301-309 | Forgets the packet and the registered relayers' signatures for it, and nothing else |

## Left out

- Hashing, secp256k1 recovery, XDR conversion, host authorization and token transfers: foreign code; they are parameters or free constructors.
- Integer width of counters and serial numbers: they are unbounded here, and the connection's cast of the sequence number to a signed 64-bit value is not modelled.
- In `WireRuns` the hash that pending lists are kept under is taken of the decoded message, and outsiders deliver decoded messages; two byte strings for one message are not told apart.
- Results that carry a reply, which only other contracts send, are not part of `WireRuns`.
- Addresses: a text of 56 bytes is taken for an address; alphabet, version byte and checksum of the Stellar encoding are foreign code.
- Network addresses outside `SorobanWire`: network and account are separate fields; the conversion of host strings to bytes is the identity.
- Fees in the Soroban contract and connections: whether a fee is paid is a parameter of `Connection.Send`, and a send that fails for it changes nothing.
- Encoded size of a call, contract detection and the dapp's outcome: parameters of the steps.
- Allowance and initialization checks, admin, fee, upgrade and default-connection setters beyond their effect on routing, events, TTL constants and error texts: settled by reading one line each. The aggregator's admin is fixed.
- RlpStream.RlpStream.AppendRaw: the panic on more items than the open list takes is a precondition.
- RlpStream.RlpStream.Out: the panic on unfinished lists is a precondition; `IsFinished` says when it holds.
- `RlpStream::estimate_size` and `append_raw_checked`: with several open lists the estimate ignores the growth of inner headers, so it is not exact.
- SorobanRlp.EncodeList: the variant for raw entries, which encodes each entry first, is not modelled; the messages do not use it.
- ClusterSignatures.VerifyFullScan: its type only admits signatures of 65 bytes, which is a precondition here.
- A message that a dapp sends before it fails is undone with its number, as the host does, so `EverySendAccounted` does not speak of it.
- CwReply: how a request becomes a proxy request (its quorum) is one step; the CosmWasm pending-response map is not modelled, because the shared removal helper always clears the request map (contracts/cosmwasm-vm/cw-xcall/src/state.rs:268-283), so the quorum is modelled on the Soroban code.
- Single bytes, booleans, signed integers, options and the nullable wrapper of the RLP library: one-line codecs over the modelled ones; null itself is an item of the format.
- Buffers of the stream and the reader: fields of type `seq`, so capacity and aliasing of slices are not captured.
- JavaScore `CallServiceImpl` and `ClusterConnection`, CosmWasm's own RLP, Solana account plumbing, mock dapps, scripts and multisig proposals: not modelled.
- Injectivity of the message that cluster validators sign: the bytes are an opaque input.
