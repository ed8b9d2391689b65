# Key custody in cardano-vault, modelled in Dafny

cardano-vault keeps Cardano wallet secrets in a database without ever
storing them in the clear. The model covers three parts of it:

- **Transport encoding.** `string_to_hex` / `hex_to_string`
  (`src/libs/utils.ts`) turn every armored blob into hex before it is
  stored, and back again. The model splits this into two codecs, each
  proved a bijection on its domain:
  - UTF-8 (`utf8.dfy`, strict, as in section 3 of RFC 3629);
  - byte-level hex (`hex.dfy`, two lowercase digits per byte).

  `utils.dfy` composes the two.
- **The OpenPGP wrapper.** `create_key_pair`, `encrypt_data` and
  `decrypt_data` (`src/libs/pgp.ts`) are in `pgp.dfy`. OpenPGP is modelled
  as an ideal library: an `Oracle` that remembers, for every armored text it
  emitted, what that text stands for.
  - A text can be a public key, a private key with its lock passphrase, a
    revocation certificate, or an `Envelope` (a sealed plaintext and its
    recipient list).
  - Fresh randomness (new key material, new ciphertext) is the armored text
    the caller supplies for the library to emit. A repeat is refused with
    `GenerationError`.
  - A private key's lock is the PIN, vault passphrase and external
    passphrase joined in that order. Omitted shares default to `""`.
- **The three-tier custody scenario** (`__tests__/flow.test.ts`) is in
  `flow.dfy`. It is a sequence of pure steps over an `Oracle` and an
  in-memory `Db`:
  - the operation, backup and customer key pairs are created;
  - the wallet secret is sealed to the customer and backup keys;
  - the customer's private key and revocation certificate are sealed to
    the operation key;
  - everything sealed is stored as hex;
  - recovery runs operation key first, then customer key with three shares.

  Lemmas state who can and cannot reach which secret.
  `key_round_trip.dfy` is the single-key scenario of
  `__tests__/pgp.test.ts`.

The scenario's secrets (identities, shares, passphrases) form a `Config`.
`Flow.Scenario` holds the test's literal values. The flow lemmas are
stated for an arbitrary `Config`, apart from the two `Scenario…` lemmas
(Flow.ScenarioFromScratch and Flow.ScenarioSharesDiffer), which are about
`Flow.Scenario`. Flow.ShareMistakesFail also requires the PIN and the salt
to be non-empty and to end differently. The randomness the scenario consumes is a `Randomness` value.
`FreshRandomness` says it did not repeat itself.

## Model

| member | source | states |
|---|---|---|
| Hex.EncodeByte | src/libs/utils.ts:12-14 | a byte becomes exactly two lowercase hex digits whose values, high digit first, make the byte |
| Hex.Encode | src/libs/utils.ts:12-14 | the hex of n bytes is 2n characters, each a lowercase digit 0-9a-f |
| Hex.Decode | src/libs/utils.ts:25-27 | decoding succeeds exactly on well-formed hex (even length, every character a hex digit of either case) and yields half as many bytes |
| Hex.DecodeEncode | src/libs/utils.ts:12-27 | decoding the hex of any bytes gives back those bytes |
| Hex.EncodeDecode | src/libs/utils.ts:12-27 | re-encoding decoded well-formed hex gives the input with its digits lower-cased |
| Hex.DecodeIndex | src/libs/utils.ts:25-27 | byte i of decoded hex is the value of digits 2i and 2i+1 |
| Hex.EncodeAppend | src/libs/utils.ts:12-14 | hex encoding distributes over concatenation |
| Hex.EncodeInjective | src/libs/utils.ts:12-14 | distinct byte sequences have distinct hex |
| Utf8.EncodeChar | src/libs/utils.ts:13 | a character becomes one to four bytes, exactly one when it is ASCII |
| Utf8.Encode | src/libs/utils.ts:13 | a string's UTF-8 is one to four bytes per character and never starts with a continuation byte; `Utf8.DecodeEncode` and `Utf8.EncodeDecode` make it a bijection onto the well-formed byte sequences |
| Utf8.DecodeFirst | src/libs/utils.ts:26 | a successful decode of one character consumes between one byte and all of them |
| Utf8.Decode | src/libs/utils.ts:26 | a decoded string has no more characters than there were bytes |
| Utf8.DecodeFirstEncodeChar | src/libs/utils.ts:13-26 | the encoding of any character, followed by anything, decodes back to that character and its length |
| Utf8.EncodeCharDecodeFirst | src/libs/utils.ts:13-26 | whatever prefix decodes as one character is exactly that character's encoding |
| Utf8.DecodeEncode | src/libs/utils.ts:13-26 | decoding the UTF-8 of any string gives back the string |
| Utf8.EncodeDecode | src/libs/utils.ts:13-26 | bytes that decode are exactly the encoding of what they decode to |
| Utf8.EncodeInjective | src/libs/utils.ts:13 | distinct strings have distinct UTF-8 |
| Utf8.EncodeAppend | src/libs/utils.ts:13 | UTF-8 encoding distributes over concatenation |
| Utf8.EncodeAscii | src/libs/utils.ts:13 | an ASCII string encodes to one byte per character, equal to its code |
| Utils.StringToHex | src/libs/utils.ts:12-14 | the hex of a string is twice its UTF-8 length, at least twice its length, well-formed and lowercase |
| Utils.HexToString | src/libs/utils.ts:25-27 | only well-formed hex decodes, to a string of at most half its length |
| Utils.RoundTrip | src/libs/utils.ts:12-27 | `hex_to_string(string_to_hex(s)) == s` for every string |
| Utils.InverseRoundTrip | src/libs/utils.ts:12-27 | hex that decodes re-encodes to itself with its digits lower-cased |
| Utils.StringToHexInjective | src/libs/utils.ts:12-14 | distinct strings have distinct hex |
| Utils.StringToHexAppend | src/libs/utils.ts:12-14 | string-to-hex distributes over concatenation |
| Utils.AsciiLength | src/libs/utils.ts:12-14 | an ASCII string's hex is exactly twice its length |
| Utils.HelloWorld | src/libs/utils.ts:10-23 | "Hello, World!" and "48656c6c6f2c20576f726c6421" map to each other in both directions |
| Pgp.Passphrase | src/libs/pgp.ts:43 | the lock is PIN, vault passphrase and external passphrase in that order: each share sits in its own slice |
| Pgp.GenerateKey | src/libs/pgp.ts:38-45 | key generation succeeds exactly when its three armored texts are distinct and never emitted before; the user ID is not checked (see Left out) |
| Pgp.ReadKey | src/libs/pgp.ts:72-74 | reading a key succeeds exactly on public or private key armor the library emitted, failing with InvalidKey |
| Pgp.ReadPrivateKey | src/libs/pgp.ts:109-111 | reading a private key succeeds exactly on private key armor, returning the held key |
| Pgp.DecryptKey | src/libs/pgp.ts:108-113 | unlocking succeeds exactly when the passphrase equals the lock, failing with UnlockError |
| Pgp.Seal | src/libs/pgp.ts:77-81 | sealing succeeds exactly with a non-empty recipient list and a never-emitted ciphertext |
| Pgp.ReadMessage | src/libs/pgp.ts:115-117 | reading a message succeeds exactly on message armor, returning its envelope |
| Pgp.Decrypt | src/libs/pgp.ts:119-124 | opening succeeds exactly when the key is a recipient and returns the sealed plaintext |
| Pgp.CreateKeyPair | src/libs/pgp.ts:27-52 | succeeds exactly on fresh armor, whatever the user ID (see Left out); all three outputs are hex that decodes to the armor; the public key reads as the new identity; the private key is locked under the joined shares |
| Pgp.ReadKeys | src/libs/pgp.ts:70-76 | every hex key is read, in order, or the whole read fails with InvalidKey |
| Pgp.ReadHexKey | src/libs/pgp.ts:72-74 | a hex key reads exactly when it decodes to the armor of a public or private key the library holds; otherwise InvalidKey |
| Pgp.ReadHexKeyOfArmor | src/libs/pgp.ts:72-74 | a key handed out as the hex of its armor reads exactly as its armor does |
| Pgp.EncryptData | src/libs/pgp.ts:66-84 | succeeds exactly with keys given, a fresh ciphertext and every key readable; returns the armored message (not hex), one envelope holding the input, sealed to one recipient per key in the given order; a failure is InvalidKey, NoRecipients or GenerationError, and an empty key list gives NoRecipients |
| Pgp.DecryptData | src/libs/pgp.ts:101-125 | a success means the input is raw message armor and the result is its plaintext; a failure is InvalidKey, UnlockError, MalformedEnvelope or NotARecipient, never anything else |
| Pgp.CreateKeyPairGrows | src/libs/pgp.ts:38-45 | key creation issues one identity and one private key, keeps every earlier text and meaning, adds no message, and preserves consistency |
| Pgp.CreateKeyPairEmits | src/libs/pgp.ts:38-45 | after key creation exactly the new key pair's three texts are newly emitted |
| Pgp.CreateKeyPairFreshIff | src/libs/pgp.ts:38-45 | armor is fresh after a key creation if and only if it was fresh before and shares no text with the new key pair |
| Pgp.CreateKeyPairHolds | src/libs/pgp.ts:47-51 | the library holds a created key pair: hex of its armor, private key with the new identity and the joined lock, public key readable from its hex |
| Pgp.EncryptDataGrows | src/libs/pgp.ts:77-83 | encryption adds exactly one message, under a fresh ciphertext, and changes nothing else |
| Pgp.DecryptDataSucceedsIff | src/libs/pgp.ts:101-125 | decryption succeeds if and only if the hex key decodes to a private key whose lock is the joined shares and which is among the message's recipients |
| Pgp.NotAPrivateKeyFails | src/libs/pgp.ts:108-111 | a hex key that does not decode to a private key the library holds fails with InvalidKey, whatever the shares and the message |
| Pgp.OnlyCompositeMatters | src/libs/pgp.ts:112 | shares that join to the same text decrypt identically |
| Pgp.SharesNotDelimited | src/libs/pgp.ts:112 | moving characters across a share boundary, ("12","3") against ("1","23"), changes nothing |
| Pgp.WrongSharesFailAlike | src/libs/pgp.ts:108-113 | shares joining to anything but the lock fail with UnlockError, whatever the message and whichever share was wrong |
| Pgp.DecryptStable | src/libs/pgp.ts:101-125 | what decrypts now decrypts to the same plaintext after the library emits more |
| Pgp.EncryptDecryptRoundTrip | src/libs/pgp.ts:66-125 | a message sealed to a list holding a key's public key opens, with that key's shares, to exactly the input |
| Pgp.NonRecipientExcluded | src/libs/pgp.ts:66-125 | a key whose identity is not among the listed keys cannot open the message, whatever the shares; with the shares that unlock it the failure is NotARecipient |
| Pgp.SealTwiceDiffers | src/libs/pgp.ts:78-83 | a check of the randomness abstraction: sealing the same input to the same keys twice gives two different armored messages, because the second seal's randomness must be fresh after the first |
| KeyRoundTrip.SealAndOpen | __tests__/pgp.test.ts:11-31 | whatever the create-seal-open sequence returns is exactly the input, and it fails only with GenerationError |
| KeyRoundTrip.SealAndOpenRoundTrip | __tests__/pgp.test.ts:11-33 | with fresh randomness, create, seal to the one public key and open with the three shares gives back exactly the input |
| KeyRoundTrip.SealAndOpenNeedsFresh | __tests__/pgp.test.ts:11-31 | the single-key scenario succeeds only on fresh randomness |
| Flow.CreateTiers | __tests__/flow.test.ts:44-70 | creating the three key pairs fails only with GenerationError, when the library's randomness repeats |
| Flow.CreateTiersSucceeds | __tests__/flow.test.ts:44-70 | fresh armor for the three tiers is enough for all three key creations to succeed |
| Flow.CreateTiersNeedsFresh | __tests__/flow.test.ts:44-70 | the three key creations succeed only on fresh, pairwise disjoint armor |
| Flow.CreateTiersGrows | __tests__/flow.test.ts:44-70 | the tiers add three identities and three private keys, no message, and lose nothing |
| Flow.CreateTiersEmitted | __tests__/flow.test.ts:44-70 | after the tiers exactly their nine armored texts are newly emitted |
| Flow.CreateTiersValid | __tests__/flow.test.ts:44-70 | creating the tiers keeps the library consistent |
| Flow.CreateTiersHolds | __tests__/flow.test.ts:44-70 | the operation key is locked with its one share, the backup key with its one share, the customer key with PIN, vault and salt joined |
| Flow.OperationHeld | __tests__/flow.test.ts:44-48 | the operation key is held under the first new identity, locked with the operation passphrase alone |
| Flow.BackupHeld | __tests__/flow.test.ts:52-57 | the backup key is held under the second new identity, locked with the cold-storage passphrase alone |
| Flow.CustomerHeld | __tests__/flow.test.ts:64-70 | the customer key is held under the third new identity, locked with PIN, vault passphrase and salt joined |
| Flow.StoreWallet | __tests__/flow.test.ts:74-91 | the wallet table gains exactly one row after the earlier ones, whose secret-key field decodes to a message holding the wallet secret; the key table is untouched; a failure is InvalidKey or GenerationError |
| Flow.StoreCustomerKey | __tests__/flow.test.ts:93-108 | the key table gains exactly one row after the earlier ones, holding the customer's public key as given and, as its private-key field, hex that decodes to a message holding the private key; the wallet table is untouched; a failure is InvalidKey or GenerationError |
| Flow.StoreWalletShape | __tests__/flow.test.ts:74-91 | the wallet secret is sealed to exactly [customer, backup] and its row stores the hex of the armored message; nothing else changes |
| Flow.StoreWalletEmits | __tests__/flow.test.ts:74-80 | storing the wallet needs a fresh ciphertext and emits exactly it |
| Flow.SealToOperation | __tests__/flow.test.ts:93-100 | a secret sealed to the operation key is sealed to exactly [operation] |
| Flow.StoreCustomerKeyShape | __tests__/flow.test.ts:93-108 | the private key and revocation certificate are each sealed to exactly [operation]; the row keeps the public key unchanged and stores the two messages as hex |
| Flow.StoreCustomerKeyNeedsFresh | __tests__/flow.test.ts:93-100 | storing the customer key needs two distinct fresh ciphertexts |
| Flow.Provision | __tests__/flow.test.ts:44-108 | each table gains exactly one row after its earlier rows; a failure is InvalidKey or GenerationError |
| Flow.ProvisionCustody | __tests__/flow.test.ts:44-108 | on fresh randomness provisioning succeeds and leaves the custody arrangement (`Custody`) |
| Flow.ProvisionNeedsFresh | __tests__/flow.test.ts:44-108 | provisioning succeeds only on fresh randomness |
| Flow.StoredMessage | __tests__/flow.test.ts:113-121 | a stored blob reads back exactly when it is well-formed hex spelling well-formed UTF-8, as the text whose hex is the blob with its digits lower-cased; otherwise MalformedEnvelope |
| Flow.RecoverCustomerKey | __tests__/flow.test.ts:112-116 | MissingRecord exactly when the key table is empty; a result is the plaintext of the message the first row's private-key blob spells; any other failure is one of decrypt_data's or MalformedEnvelope |
| Flow.RecoverWalletKey | __tests__/flow.test.ts:120-126 | MissingRecord exactly when the wallet table is empty; a result is the plaintext of the message the first row's secret-key blob spells; any other failure is one of decrypt_data's or MalformedEnvelope |
| Flow.ProposedFlow | __tests__/flow.test.ts:41-128 | a success leaves exactly one row in each table; recovery never fails with MissingRecord, because provisioning always appends the rows it reads, and no seal fails with NoRecipients |
| Flow.RecoverCustomerKeyFromCustody | __tests__/flow.test.ts:112-118 | the operation key and its passphrase open the first key row to exactly the customer's private key |
| Flow.RecoverWalletKeyFromCustody | __tests__/flow.test.ts:120-128 | the recovered customer key and the three shares open the first wallet row to exactly the wallet secret |
| Flow.ProposedFlowSucceeds | __tests__/flow.test.ts:41-128 | on fresh randomness the whole scenario succeeds and both assertEquals hold; a consistent library stays consistent |
| Flow.ProposedFlowNeedsFresh | __tests__/flow.test.ts:41-128 | the scenario succeeds only on fresh randomness |
| Flow.FlowFromScratch | __tests__/flow.test.ts:41-128 | from a library that has produced nothing, fresh randomness makes the scenario succeed, recover both secrets and leave the library consistent |
| Flow.ScenarioFromScratch | __tests__/flow.test.ts:41-128 | with the test's own identities and shares, from a library that has produced nothing, the customer gets exactly the wallet secret back |
| Flow.BackupOpensWallet | __tests__/flow.test.ts:74-80 | the backup key with its cold-storage passphrase alone opens the wallet secret |
| Flow.WalletOpeners | __tests__/flow.test.ts:74-80 | exactly two (key, passphrase) pairs open the wallet secret: the customer key with the three shares joined, and the backup key with its passphrase |
| Flow.CustomerKeyOpeners | __tests__/flow.test.ts:93-100 | exactly the operation key with its passphrase opens the stored customer key and revocation certificate |
| Flow.OperationCannotOpenWallet | __tests__/flow.test.ts:74-80 | the operation key opens the wallet secret under no passphrase |
| Flow.CustomerNeedsAllShares | __tests__/flow.test.ts:120-126 | the customer key opens the wallet secret if and only if the shares join to PIN, vault passphrase and salt; otherwise UnlockError |
| Flow.ShareMistakesFail | __tests__/flow.test.ts:120-126 | forgetting the salt, forgetting the PIN, or swapping PIN and salt fails with UnlockError |
| Flow.ScenarioSharesDiffer | __tests__/flow.test.ts:8-14 | the scenario's PIN and salt are non-empty and end in different characters |
| Flow.StoredFieldsCannotOpenWallet | __tests__/flow.test.ts:82-108 | none of the four fields provisioning fills from key pairs and sealed messages (the wallet row's skey; the key row's public key, private key and revocation certificate) opens the wallet secret, whatever the shares |
| Flow.StoredFieldText | __tests__/flow.test.ts:82-108 | each of those four fields decodes to one of the three sealed messages or to the customer's public key armor |
| Flow.CustomerKeyNotInClear | __tests__/flow.test.ts:102-108 | none of those four fields is the customer's private key or decodes to its armor |

## Left out

- Buffer's leniency is not modelled. `hex_to_string` in the source never
  fails: Buffer stops at the first non-hex pair, drops an odd trailing
  digit, and replaces ill-formed UTF-8 with U+FFFD. `Utils.HexToString`
  returns `None` for such input instead.
- Pgp.ReadHexKey and Pgp.DecryptData: the model fails with `InvalidKey`
  where the source reads whatever well-formed prefix Buffer recovers, which
  may be a valid key. The hex of a key's armor followed by one more digit,
  or by a non-hex pair, is refused by the model and read by the source.
- Flow.StoredMessage: the model fails with `MalformedEnvelope` where the
  source reads whatever well-formed prefix Buffer recovers, which may be a
  valid message.
- Lone surrogates: Dafny's `char` is a Unicode scalar value, so JavaScript
  strings holding unpaired surrogates (which Buffer encodes as U+FFFD)
  cannot be expressed.
- OpenPGP internals are an ideal oracle:
  - curve25519 keys and the real cryptography;
  - the armor format and randomness. Fresh randomness is an input, and a
    repeated armored text is refused with `GenerationError`.
  - tamper detection. Only text the library emitted reads back.
- Pgp.GenerateKey and Pgp.CreateKeyPair: the user ID is not validated.
  openpgp.js rejects a user ID whose e-mail is not an address, and the
  source's `create_key_pair` then throws. In the model key creation
  succeeds on fresh armor whatever the name and e-mail, and
  `GenerationError` stands only for repeated randomness. The flow lemmas
  that hold for any `Config` inherit this gap for a `Config` with a
  malformed e-mail: Flow.CreateTiersSucceeds, Flow.ProvisionCustody,
  Flow.ProposedFlowSucceeds and Flow.FlowFromScratch. The same gap applies
  to KeyRoundTrip.SealAndOpenRoundTrip, whose name and e-mail are
  parameters. The scenario's three e-mails are well-formed addresses.
- Pgp.DecryptKey: openpgp.js refuses to unlock a key that was generated with
  an empty passphrase (such a key is stored unencrypted). The model
  unlocks it with the empty passphrase instead.
- Pgp.DecryptDataSucceedsIff: inherits the empty-lock behaviour. When all
  three shares are `""` it claims success where `decrypt_data` throws.
- Pgp.EncryptDecryptRoundTrip: the same holds when the joined shares are
  empty.
- KeyRoundTrip.SealAndOpen and KeyRoundTrip.SealAndOpenRoundTrip: the same
  holds when the three shares are all empty. The flow lemmas inherit it too,
  for a `Config` with an empty lock; the scenario's locks are all non-empty.
- Pgp.EncryptDecryptRoundTrip: the round trip is exact in the model.
  openpgp.js normalises the line endings of text messages, so the source
  returns a plaintext holding `"\r\n"` with `"\n"` in its place. The same
  applies to KeyRoundTrip.SealAndOpenRoundTrip. The scenarios' plaintexts
  hold no carriage return: the wallet's bech32 key, the hex of the
  customer's private key and revocation certificate (`string_to_hex` output,
  digits only), and the single-key scenario's one-line JSON text.
- `async`/`await` and `Promise.all` are treated as sequential.
- `create_wallet` of the external Cardano library is a `Wallet` parameter
  with opaque fields.
- Flow.StoredFieldsCannotOpenWallet, Flow.StoredFieldText and
  Flow.CustomerKeyNotInClear: they cover the four fields provisioning fills
  from key pairs and sealed messages, not every stored field. The wallet
  row's `pkey`, `key_hash` and three addresses come from the `create_wallet`
  parameter and are opaque to the model, and the `"MOCK"` ids are
  constants; these lemmas say nothing about them.
- `JSON.stringify` and `JSON.parse` in the single-key scenario are left
  out. The model seals and opens the message text itself.
- src/db/query.ts, src/db/postgres.ts and src/db/types/mod.ts are not part
  of this model: they are SQL plumbing and record shapes. The scenario's
  in-memory `Db` mirrors only the two tables it pushes to.
- src/libs/env.ts is not part of this model. Its values appear only as
  fields of `Config`.
- A missing row: the source throws a `TypeError` when `db.pgp_keys[0]` or
  `db.cardano_keys[0]` is missing. The model returns `MissingRecord`.
  Recovery reads the first row, as the source does. The recovery lemmas
  therefore assume the tables were empty before provisioning, as the
  scenario's database is.
