# drift-rs instruction encoding, modelled in Dafny

This project models two pieces of the drift-rs client SDK. Both turn a trading intent into the shape the Drift program expects on chain.

- **`src/types.rs`**, modelled in `markets.dfy`, `orders.dfy` and `accounts.dfy`:
  - `MarketId` and its symbol lookup. The symbol is split on `-`. The lookup then does an ASCII case-insensitive first-match search in the spot registry or the perp registry.
  - The `NewOrder` builder. Its setters take the builder by value and return it changed. They are modelled as functions from builder to builder. `build` projects the builder into `OrderParams`.
  - `AccountType`, with its two orders:
    - the hand-written `partial_cmp`, which compares the variant tag and then the pubkey;
    - the derived `Ord`, which also breaks ties on `writable`.
  - `accounts.sort()`. The standard library's sort is stable and compares with `lt`, which for `AccountType` comes from the hand-written `partial_cmp`, not from the derived `Ord`. `SortAccounts` is a stable insertion sort by `partial_cmp`: the output is sorted, a permutation of the input, and accounts that `partial_cmp` ties keep their input order. `SortByOrd` sorts by the derived `Ord`, and the two agree on every input in which no two accounts share a variant and a pubkey.
  - The projection of an `AccountType` into instruction `AccountMeta`.
- **`src/user_name.rs`**, modelled in `user_name.dfy`: `encode_name`.
  - It is a method with the source's two loops. One loop pushes the name's characters and the other pushes `name.len()` spaces. The method is proved equal to the specification function `EncodedName`.
  - A name is a sequence of Unicode scalar values, which is Dafny's `char`.
  - `name.len()` is the name's UTF-8 byte length, `ByteLen`.

`wrappers.dfy` holds the `Option` and `Result` types. `ints.dfy` holds the source's fixed-width integers (`u16`, `u64` and `i64`) as ranges of integers, and `i64::unsigned_abs` written out in two's complement.

`MarketId::perp`, `MarketId::spot` and `From<(u16, MarketType)>` are the functions `PerpId`, `SpotId` and `FromPair`. `MarketIdConstructors` states what they give. `AccountType::pubkey` is the `pubkey` field that all three variants of the datatype share.

## Model

| member | source | states |
|---|---|---|
| `Ints.UnsignedAbs` | src/types.rs:127 | `unsigned_abs` is the mathematical absolute value for every i64; it is at most 2^63, and equals 2^63 exactly for `i64::MIN` |
| `Orders.MarketOrder` | src/types.rs:103-109 | `market(m)` sets the order type to Market and the market to `m`; direction is the default, amount and price are 0, every flag is false |
| `Orders.LimitOrder` | src/types.rs:111-117 | `limit(m)` sets the order type to Limit and the market to `m`; everything else is at its default |
| `Orders.Amount` | src/types.rs:121-130 | the direction is Short exactly when the amount is negative (zero is Long); the stored magnitude is the absolute value; no other field changes |
| `Orders.Price` | src/types.rs:132-135 | sets the price; no other field changes |
| `Orders.ReduceOnly` | src/types.rs:137-140 | sets reduce-only; no other field changes |
| `Orders.Ioc` | src/types.rs:142-145 | sets immediate-or-cancel; no other field changes |
| `Orders.PostOnly` | src/types.rs:147-150 | sets the post-only flag; no other field changes |
| `Orders.Build` | src/types.rs:152-169 | market index and type come from the market id, and price, amount, reduce-only, direction and ioc are carried over; post-only becomes TryPostOnly when the flag is set and None otherwise |
| `Orders.BuildRoundTrip` | src/types.rs:152-169 | the builder can be read back from the built parameters, so `build` loses no field |
| `Orders.BuildInjective` | src/types.rs:152-169 | two different builders never build the same parameters |
| `Orders.AmountRoundTrip` | src/types.rs:121-130 | the built direction and magnitude together give back the signed amount, for every i64 |
| `Orders.LimitAmountExamples` | src/types.rs:111-130 | `limit(m).amount(-5).build()` is a Short of 5 on `m`; `.amount(5)` is a Long of 5; `.amount(0)` is a Long of 0 |
| `Orders.AmountOfMinimum` | src/types.rs:121-127 | `amount(i64::MIN)` is a Short of magnitude 2^63 |
| `Orders.SettersCommute` | src/types.rs:121-150 | setters of different fields commute |
| `Orders.LastSetterWins` | src/types.rs:121-150 | setting a field twice keeps only the last value |
| `Markets.MarketIdConstructors` | src/types.rs:64-86 | `perp` and `spot` are the pair conversion at a fixed kind; the pair conversion keeps both parts; a perp id never equals a spot id |
| `Markets.EqIgnoreAsciiCaseIsEquivalence` | src/types.rs:43 | case-insensitive equality is reflexive, symmetric and transitive |
| `Markets.AsciiLowerExamples` | src/types.rs:48 | "PeRp" matches "perp" and "SOL" matches "sol"; "perps" and "something" do not match "perp" |
| `Markets.IndexOf` | src/types.rs:39 | finds the first dash, or reports that there is none |
| `Markets.FirstPart` | src/types.rs:39-40 | the first part of the split is a dash-free prefix that ends at the end of the symbol or at a dash |
| `Markets.SplitParts` | src/types.rs:39-40 | the split's first two parts: a second part exists exactly when there is a dash; the symbol starts with first part, dash, second part; the second part ends at the end or at the next dash |
| `Markets.SplitJoined` | src/types.rs:39-40 | splitting "base-suffix" with a dash-free base and suffix gives back base and suffix |
| `Markets.FindIndex` | src/types.rs:43-53 | `iter().find`: gives the position of the first matching element, or nothing exactly when no element matches |
| `Markets.Lookup` | src/types.rs:38-62 | gives a spot id exactly when the symbol has no dash and a spot market matches it; gives a perp id exactly when the second part is "perp" (any case) and a perp base matches the first part; any other input is an error |
| `Markets.LookupSpotHit` | src/types.rs:41-46 | a dash-free symbol gives the id of the first spot market that matches it |
| `Markets.SplitIgnoresRest` | src/types.rs:39-40 | whatever follows a second dash is not part of the first two parts of the split |
| `Markets.LookupPerpHit` | src/types.rs:39-56 | a symbol whose second part is "perp" (any case) gives the id of the first perp market whose base matches the first part, whatever follows a second dash |
| `Markets.LookupOtherSuffixFails` | src/types.rs:47-61 | a second part other than "perp" is an error, whatever the registries hold |
| `Markets.LookupUnknownSpot` | src/types.rs:41-61 | a dash-free symbol that no spot market matches is an error |
| `Markets.LookupTestHits` | src/types.rs:196-208 | with SOL registered as a spot and as a perp market, "SOL" and "sol-perp" resolve to those markets, whatever their indices |
| `Markets.LookupTestExtraPart` | src/types.rs:39-56 | "sol-perp-x" resolves to the SOL perp market, like "sol-perp" |
| `Markets.LookupTestMissSpot` | src/types.rs:210-216 | "market404" is an error |
| `Markets.LookupTestMissPerp` | src/types.rs:210-216 | "market404-perp" is an error |
| `Markets.LookupTestMissSuffix` | src/types.rs:210-216 | "market404-something" is an error |
| `Accounts.CmpBytesFlip` | src/types.rs:262 | swapping the arguments of the lexicographic pubkey comparison flips its answer |
| `Accounts.CmpBytesEqual` | src/types.rs:262 | the pubkey comparison answers Equal exactly on equal keys |
| `Accounts.CmpBytesTrans` | src/types.rs:262 | the pubkey comparison is transitive |
| `Accounts.Parts` | src/types.rs:239-249 | `parts` gives the pubkey and the writable flag; for an Oracle the flag is false |
| `Accounts.Discriminant` | src/types.rs:250-255 | the tag is 0 for Oracle, 1 for Spot and 2 for Perp |
| `Accounts.PartialCmp` | src/types.rs:258-267 | `partial_cmp` always answers; it answers Equal exactly when the variant and the pubkey agree, so it ignores `writable` |
| `Accounts.DerivedCmp` | src/types.rs:223-229 | the derived `Ord` answers Equal only on identical accounts |
| `Accounts.PartialCmpFlip` | src/types.rs:258-267 | `partial_cmp` is antisymmetric: swapping the arguments flips the answer |
| `Accounts.PartialCmpTrans` | src/types.rs:258-267 | the at-most relation of `partial_cmp` is transitive |
| `Accounts.DerivedCmpFlip` | src/types.rs:223-229 | the derived order is antisymmetric |
| `Accounts.DerivedCmpTrans` | src/types.rs:223-229 | the at-most relation of the derived order is transitive |
| `Accounts.OrdersAgree` | src/types.rs:223-267 | where `partial_cmp` tells two accounts apart, the derived order gives the same answer; otherwise the two are the same Spot or Perp account with different writable flags, and the derived order puts the read-only one first |
| `Accounts.Insert` | src/types.rs:304 | inserting into a list sorted by `partial_cmp` keeps it sorted, adds exactly the one element, and puts it ahead of every account it ties with |
| `Accounts.SortAccounts` | src/types.rs:304 | the sort's output is sorted by `partial_cmp`, is a permutation of its input, and keeps the accounts that `partial_cmp` ties in their input order |
| `Accounts.StableSortedUnique` | src/types.rs:304 | two lists sorted by `partial_cmp` that hold the same tied accounts in the same order are equal |
| `Accounts.SortAccountsUnique` | src/types.rs:304 | every stable sort by `partial_cmp` gives the output of `SortAccounts` |
| `Accounts.SortKeepsTiedOrder` | src/types.rs:258-267 | the same Spot or Perp account listed writable first stays in that order, because the comparison ignores `writable` |
| `Accounts.SortedLayout` | src/types.rs:258-267 | in sorted output, Oracles come before Spots and Spots before Perps, and pubkeys ascend within a variant |
| `Accounts.OrdInsert` | src/types.rs:223 | inserting into a list sorted by the derived order keeps it sorted and adds exactly the one element |
| `Accounts.SortByOrd` | src/types.rs:223 | sorting by the derived `Ord` gives a list sorted by it that is a permutation of the input |
| `Accounts.OrdSortedUnique` | src/types.rs:223 | the derived order has no ties between distinct accounts, so two lists sorted by it that hold the same accounts are equal |
| `Accounts.SortByOrdBreaksTies` | src/types.rs:223 | the derived order puts the read-only copy of a Spot account before the writable one, unlike `sort` |
| `Accounts.SortAccountsWithoutTies` | src/types.rs:223-304 | when no two accounts share a variant and a pubkey, `sort` and a sort by the derived `Ord` give the same output |
| `Accounts.SortTestVector` | src/types.rs:287-325 | sorting the unit test's four accounts gives Oracle(1s), Oracle(2s), Spot(3s, true), Perp(4s, false) |
| `Accounts.ToAccountMeta` | src/types.rs:269-278 | the metadata keeps the pubkey and is never a signer; it is writable exactly for a writable Spot or Perp, so never for an Oracle |
| `Accounts.AccountMetaRoundTrip` | src/types.rs:269-278 | the projection loses only the variant tag: the account can be rebuilt from its tag and its metadata |
| `UserName.ByteLenBounds` | src/user_name.rs:8 | a name has at least as many bytes as characters, and at most four times as many; the two counts are equal exactly for an ASCII name |
| `UserName.EncodeName` | src/user_name.rs:7-28 | the two push loops build exactly `EncodedName(name)`: an error for more than 32 bytes, otherwise the name followed by `name.len()` spaces |
| `UserName.EncodedNameAccepts` | src/user_name.rs:3-11 | a name is accepted exactly when its byte length is at most 32 |
| `UserName.EncodedNameLayout` | src/user_name.rs:13-20 | the result is the name's characters in order, then exactly `name.len()` spaces; dropping those spaces gives back the name |
| `UserName.EncodedAsciiNameDoubles` | src/user_name.rs:13-27 | an ASCII name of n characters encodes to 2n characters |
| `UserName.EncodedNonAsciiName` | src/user_name.rs:14-20 | a non-ASCII name encodes to more than twice its character count |
| `UserName.EncodedNameEdges` | src/user_name.rs:8-27 | the empty name encodes to the empty buffer; a 32-byte name is accepted, into 64 characters; a 33-byte name is rejected |
| `UserName.EncodedNameTrimRoundTrip` | src/user_name.rs:14-20 | trimming the trailing spaces gives back the name, unless the name itself ends in a space |
| `UserName.EncodedNameNotFixedWidth` | src/user_name.rs:4-20 | the default user name "Main Account" (12 bytes) encodes to 24 characters, not to a 32-byte slot |
| `UserName.EncodeNameFixed` | src/user_name.rs:13-25 | the corrected encoder, built with the same two loops, gives `FixedSlotName(name)`: the name padded with spaces up to 32 bytes |
| `UserName.FixedSlotNameFills` | src/user_name.rs:13-25 | every accepted name fills exactly 32 UTF-8 bytes, starts with the name, is space-padded, and trims back to the name |

## Left out

- The `Context` enum and the registries `spot_markets(context)` and `perp_markets(context)` from `crate::constants`. That module is not part of this model. `Lookup` takes the registry of one context as two sequences of `{symbol, market_index}` records.
- `SdkError` and its `From` conversions wrap Solana client error types, which are not part of this model. Errors are an abstract `Err`. The message that `encode_name` formats for a long name is not modelled.
- The unsafe pointer read in `discriminant` is modelled as the tag it reads: 0, 1 or 2 by variant.
- `OrderParams` has more fields than `build` sets. `build` leaves the others (user order id, expiry, trigger and auction fields) at their defaults through `..Default::default()`, and they are not modelled. The other enum variants that `post_only` could map to (the source's TODO) are not produced.
- `PositionDirection::default()` lives in the program crate, which is not part of this model. It is taken to be `Long`, that crate's declared default (`DefaultDirection`).
- `sort` is the standard library's stable merge sort and is not modelled as that algorithm. `SortAccounts` is a stable insertion sort by the same comparison, and `SortAccountsUnique` shows that every stable sort by `partial_cmp` gives its output.
- `Vec::with_capacity(32)` in `encode_name` only reserves memory and does not change the result, so it is not modelled.
- `src/user.rs`: the `DriftUser` websocket subscription, the event-emitter registration and the `Arc<RwLock<DataAndSlot>>` cache. These are asynchronous and concurrent code over subscriber and decoder code that is not part of this model. The cache handler in that code stores every update as it arrives, without comparing slots. So the model does not claim a monotonic-slot policy.
- `src/token_faucet.rs`: program-derived-address lookups use SHA-256 and a curve check, and the rest builds an anchor client. Neither is modelled.
- `tests/integration.rs` and `tests/test_helpers.rs` are devnet transactions, signing and RPC. The integration test calls `post_only` with a `PostOnlyParam`. The builder's `post_only` takes a `bool`, and the model follows the builder.
- The on-chain user account stores the name in a fixed 32-byte field. The code instead builds a character buffer padded with `name.len()` spaces. The model follows the code (`EncodeName`). The 32-byte form appears only as the corrected encoder of the finding below.

## Findings

| source | as written | input that shows it | evidently intended | confidence | as-written member | corrected member |
|---|---|---|---|---|---|---|
| src/user_name.rs:18-20 | pads the name with `name.len()` spaces, so the buffer is twice as long as an ASCII name | `"Main Account"` (12 bytes) gives 24 characters, not 32; a 32-byte name gives 64 | pad with `32 - name.len()` spaces, so the name fills the 32-byte slot that the buffer capacity and the commented-out copy at lines 21-25 describe | medium, not executed | `UserName.EncodedNameNotFixedWidth` | `UserName.FixedSlotNameFills` |
