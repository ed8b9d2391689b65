/**
  `create_key_pair`, `encrypt_data` and `decrypt_data` (src/libs/pgp.ts) over
  an ideal OpenPGP library.

  The library is modelled as an oracle whose state records, for every
  armored text it has produced, what that text stands for: a public key, a
  passphrase-locked private key, a revocation certificate, or a sealed
  message with its plaintext and recipients. Armored text is opaque: the
  oracle reads back only text it produced itself. Fresh randomness (new key
  material, new ciphertext) enters as the armored text the caller supplies
  for the oracle to emit; text already produced is refused, which is how
  the model lets two seals of one plaintext differ.
 */
module Pgp {
  import opened Results
  import Utils

  /** The opaque identity of one generated key pair. */
  datatype KeyId = KeyId(serial: nat)

  /** A private key as the library holds it: whose it is, and the passphrase locking it. */
  datatype PrivateKey = PrivateKey(id: KeyId, name: string, email: string, lock: string)

  /** A sealed message: the plaintext and the keys it was sealed to, in the order given. */
  datatype Envelope = Envelope(plaintext: string, recipients: seq<KeyId>)

  /** What the library has produced so far, indexed by the armored text it emitted. */
  datatype Oracle = Oracle(
    publicKeys: map<string, KeyId>,
    privateKeys: map<string, PrivateKey>,
    revocations: map<string, KeyId>,
    messages: map<string, Envelope>,
    nextId: nat)

  /** The three armored texts one key generation emits. */
  datatype KeyArmor = KeyArmor(privateKey: string, publicKey: string, revocationCertificate: string)
  {
    function Texts(): set<string> { {privateKey, publicKey, revocationCertificate} }
  }

  /** What `create_key_pair` returns: the three armored texts, each hex-encoded. */
  datatype KeyPair = KeyPair(privateKey: string, publicKey: string, revocationCertificate: string)

  /** The library before it has produced anything. */
  const Initial: Oracle := Oracle(map[], map[], map[], map[], 0)

  /** `text` is armor the library has already emitted. */
  predicate Emitted(o: Oracle, text: string) {
    text in o.publicKeys || text in o.privateKeys || text in o.revocations || text in o.messages
  }

  /** The armor of a new key pair is three distinct texts the library has not emitted before. */
  predicate FreshKeyArmor(o: Oracle, a: KeyArmor) {
    && a.privateKey != a.publicKey
    && a.privateKey != a.revocationCertificate
    && a.publicKey != a.revocationCertificate
    && !Emitted(o, a.privateKey)
    && !Emitted(o, a.publicKey)
    && !Emitted(o, a.revocationCertificate)
  }

  /**
    The library's bookkeeping is consistent: every identity was issued by
    the counter, and each identity has at most one private-key armor.
   */
  predicate Valid(o: Oracle) {
    && (forall t :: t in o.publicKeys ==> o.publicKeys[t].serial < o.nextId)
    && (forall t :: t in o.privateKeys ==> o.privateKeys[t].id.serial < o.nextId)
    && (forall t :: t in o.revocations ==> o.revocations[t].serial < o.nextId)
    && (forall t, u :: t in o.privateKeys && u in o.privateKeys && o.privateKeys[t].id == o.privateKeys[u].id ==> t == u)
  }

  /** `o2` remembers everything `o1` does, and has issued at least as many identities. */
  predicate Extends(o1: Oracle, o2: Oracle) {
    && o1.nextId <= o2.nextId
    && (forall t :: t in o1.publicKeys ==> t in o2.publicKeys && o2.publicKeys[t] == o1.publicKeys[t])
    && (forall t :: t in o1.privateKeys ==> t in o2.privateKeys && o2.privateKeys[t] == o1.privateKeys[t])
    && (forall t :: t in o1.revocations ==> t in o2.revocations && o2.revocations[t] == o1.revocations[t])
    && (forall t :: t in o1.messages ==> t in o2.messages && o2.messages[t] == o1.messages[t])
  }

  /**
    The lock passphrase built from up to three shares: the user's PIN, the
    vault's passphrase and an external passphrase, joined in that order.
   */
  function Passphrase(userPin: string, vaultPassphrase: string := "", externalPassphrase: string := ""): (p: string)
    ensures |p| == |userPin| + |vaultPassphrase| + |externalPassphrase|
    ensures p[..|userPin|] == userPin
    ensures p[|userPin|..|userPin| + |vaultPassphrase|] == vaultPassphrase
    ensures p[|userPin| + |vaultPassphrase|..] == externalPassphrase
  {
    userPin + vaultPassphrase + externalPassphrase
  }

  // ----- The library's operations -----

  /**
    `openpgp.generateKey`: a new identity whose private key is locked under
    `passphrase`. The user ID (`name`, `email`) is recorded, not validated.
   */
  function GenerateKey(o: Oracle, armor: KeyArmor, name: string, email: string, passphrase: string): (r: Result<Oracle>)
    ensures r.Ok? <==> FreshKeyArmor(o, armor)
  {
    if !FreshKeyArmor(o, armor) then Err(GenerationError)
    else
      var id := KeyId(o.nextId);
      Ok(o.(
        publicKeys := o.publicKeys[armor.publicKey := id],
        privateKeys := o.privateKeys[armor.privateKey := PrivateKey(id, name, email, passphrase)],
        revocations := o.revocations[armor.revocationCertificate := id],
        nextId := o.nextId + 1))
  }

  /** `openpgp.readKey`: the identity behind armored key text, public or private. */
  function ReadKey(o: Oracle, armored: string): (r: Result<KeyId>)
    ensures r.Ok? <==> armored in o.publicKeys || armored in o.privateKeys
    ensures r.Err? ==> r.error == InvalidKey
  {
    if armored in o.publicKeys then Ok(o.publicKeys[armored])
    else if armored in o.privateKeys then Ok(o.privateKeys[armored].id)
    else Err(InvalidKey)
  }

  /** `openpgp.readPrivateKey`: the locked private key behind armored text. */
  function ReadPrivateKey(o: Oracle, armored: string): (r: Result<PrivateKey>)
    ensures r.Ok? <==> armored in o.privateKeys
    ensures r.Ok? ==> r.value == o.privateKeys[armored]
    ensures r.Err? ==> r.error == InvalidKey
  {
    if armored in o.privateKeys then Ok(o.privateKeys[armored]) else Err(InvalidKey)
  }

  /** `openpgp.decryptKey`: unlocks a private key when the passphrase is exactly its lock. */
  function DecryptKey(key: PrivateKey, passphrase: string): (r: Result<PrivateKey>)
    ensures r.Ok? <==> passphrase == key.lock
    ensures r.Ok? ==> r.value == key
    ensures r.Err? ==> r.error == UnlockError
  {
    if passphrase == key.lock then Ok(key) else Err(UnlockError)
  }

  /** `openpgp.encrypt` of a text message: one envelope sealed to every key in `recipients`. */
  function Seal(o: Oracle, plaintext: string, recipients: seq<KeyId>, ciphertext: string): (r: Result<(Oracle, string)>)
    ensures r.Ok? <==> |recipients| > 0 && !Emitted(o, ciphertext)
  {
    if |recipients| == 0 then Err(NoRecipients)
    else if Emitted(o, ciphertext) then Err(GenerationError)
    else Ok((o.(messages := o.messages[ciphertext := Envelope(plaintext, recipients)]), ciphertext))
  }

  /** `openpgp.readMessage`: the envelope behind armored message text. */
  function ReadMessage(o: Oracle, armored: string): (r: Result<Envelope>)
    ensures r.Ok? <==> armored in o.messages
    ensures r.Ok? ==> r.value == o.messages[armored]
    ensures r.Err? ==> r.error == MalformedEnvelope
  {
    if armored in o.messages then Ok(o.messages[armored]) else Err(MalformedEnvelope)
  }

  /** `openpgp.decrypt`: the plaintext, when the unlocked key is one of the recipients. */
  function Decrypt(env: Envelope, key: PrivateKey): (r: Result<string>)
    ensures r.Ok? <==> key.id in env.recipients
    ensures r.Ok? ==> r.value == env.plaintext
    ensures r.Err? ==> r.error == NotARecipient
  {
    if key.id in env.recipients then Ok(env.plaintext) else Err(NotARecipient)
  }

  // ----- src/libs/pgp.ts -----

  /**
    `create_key_pair`: generates an identity locked under the composite
    passphrase and returns its three armored texts hex-encoded.
   */
  function CreateKeyPair(o: Oracle, armor: KeyArmor, name: string, email: string,
                         userPin: string, vaultPassphrase: string := "", externalPassphrase: string := ""): (r: Result<(Oracle, KeyPair)>)
    ensures r.Ok? <==> FreshKeyArmor(o, armor)
    ensures r.Err? ==> r.error == GenerationError
    ensures r.Ok? ==>
      && Utils.HexToString(r.value.1.privateKey) == Some(armor.privateKey)
      && Utils.HexToString(r.value.1.publicKey) == Some(armor.publicKey)
      && Utils.HexToString(r.value.1.revocationCertificate) == Some(armor.revocationCertificate)
    ensures r.Ok? ==>
      && ReadHexKey(r.value.0, r.value.1.publicKey) == Ok(KeyId(o.nextId))
      && armor.privateKey in r.value.0.privateKeys
      && r.value.0.privateKeys[armor.privateKey].id == KeyId(o.nextId)
      && r.value.0.privateKeys[armor.privateKey].lock == Passphrase(userPin, vaultPassphrase, externalPassphrase)
  {
    var o' :- GenerateKey(o, armor, name, email, Passphrase(userPin, vaultPassphrase, externalPassphrase));
    Utils.RoundTrip(armor.privateKey);
    Utils.RoundTrip(armor.publicKey);
    Utils.RoundTrip(armor.revocationCertificate);
    Ok((o', KeyPair(
      Utils.StringToHex(armor.privateKey),
      Utils.StringToHex(armor.publicKey),
      Utils.StringToHex(armor.revocationCertificate))))
  }

  /** Reads every hex-encoded key of a list, failing at the first that does not read. */
  function ReadKeys(o: Oracle, hexKeys: seq<string>): (r: Result<seq<KeyId>>)
    ensures r.Ok? <==> forall i :: 0 <= i < |hexKeys| ==> ReadHexKey(o, hexKeys[i]).Ok?
    ensures r.Ok? ==> |r.value| == |hexKeys|
    ensures r.Ok? ==> forall i :: 0 <= i < |hexKeys| ==> ReadHexKey(o, hexKeys[i]) == Ok(r.value[i])
    ensures r.Err? ==> r.error == InvalidKey
  {
    if hexKeys == [] then Ok([])
    else
      var id :- ReadHexKey(o, hexKeys[0]);
      var rest :- ReadKeys(o, hexKeys[1..]);
      Ok([id] + rest)
  }

  /**
    `openpgp.readKey({ armoredKey: hex_to_string(k) })`: reads exactly when the
    hex spells the armor of a public or private key the library holds.
   */
  function ReadHexKey(o: Oracle, hexKey: string): (r: Result<KeyId>)
    ensures r.Ok? <==> (
      && Utils.HexToString(hexKey).Some?
      && (Utils.HexToString(hexKey).value in o.publicKeys || Utils.HexToString(hexKey).value in o.privateKeys))
    ensures r.Err? ==> r.error == InvalidKey
  {
    match Utils.HexToString(hexKey)
    case None => Err(InvalidKey)
    case Some(armored) => ReadKey(o, armored)
  }

  /** A key handed out hex-encoded reads back as its armor does. */
  lemma ReadHexKeyOfArmor(o: Oracle, armored: string)
    ensures ReadHexKey(o, Utils.StringToHex(armored)) == ReadKey(o, armored)
  {
    Utils.RoundTrip(armored);
  }

  /**
    `encrypt_data`: hex-decodes every public key and seals `input` to all of
    them in one message, returned as armored text (not hex).
   */
  function EncryptData(o: Oracle, input: string, hexPublicKeys: seq<string>, ciphertext: string): (r: Result<(Oracle, string)>)
    ensures r.Ok? <==> (
      && |hexPublicKeys| > 0
      && !Emitted(o, ciphertext)
      && forall i :: 0 <= i < |hexPublicKeys| ==> ReadHexKey(o, hexPublicKeys[i]).Ok?)
    ensures r.Ok? ==> r.value.1 == ciphertext
    ensures r.Ok? ==> ciphertext in r.value.0.messages && r.value.0.messages[ciphertext].plaintext == input
    ensures r.Ok? ==> |r.value.0.messages[ciphertext].recipients| == |hexPublicKeys|
    ensures r.Ok? ==> forall i :: 0 <= i < |hexPublicKeys| ==>
      ReadHexKey(o, hexPublicKeys[i]) == Ok(r.value.0.messages[ciphertext].recipients[i])
    ensures r.Err? ==> r.error == InvalidKey || r.error == NoRecipients || r.error == GenerationError
    ensures |hexPublicKeys| == 0 ==> r == Err(NoRecipients)
  {
    var ids :- ReadKeys(o, hexPublicKeys);
    Seal(o, input, ids, ciphertext)
  }

  /**
    `decrypt_data`: hex-decodes the private key, unlocks it with the
    composite passphrase, reads `input` as armored message text and opens it.
   */
  function DecryptData(o: Oracle, input: string, hexPrivateKey: string,
                       userPin: string, vaultPassphrase: string := "", externalPassphrase: string := ""): (r: Result<string>)
    ensures r.Ok? ==> input in o.messages && r.value == o.messages[input].plaintext
    ensures r.Err? ==> r.error in {InvalidKey, UnlockError, MalformedEnvelope, NotARecipient}
  {
    match Utils.HexToString(hexPrivateKey)
    case None => Err(InvalidKey)
    case Some(armored) =>
      var locked :- ReadPrivateKey(o, armored);
      var key :- DecryptKey(locked, Passphrase(userPin, vaultPassphrase, externalPassphrase));
      var message :- ReadMessage(o, input);
      Decrypt(message, key)
  }

  // ----- Properties -----

  /** Creating a key pair adds exactly one identity and keeps everything already produced. */
  lemma CreateKeyPairGrows(o: Oracle, armor: KeyArmor, name: string, email: string,
                           userPin: string, vaultPassphrase: string, externalPassphrase: string)
    requires CreateKeyPair(o, armor, name, email, userPin, vaultPassphrase, externalPassphrase).Ok?
    ensures var o' := CreateKeyPair(o, armor, name, email, userPin, vaultPassphrase, externalPassphrase).value.0;
      && Extends(o, o')
      && o'.nextId == o.nextId + 1
      && o'.privateKeys.Keys == o.privateKeys.Keys + {armor.privateKey}
      && o'.messages == o.messages
      && (Valid(o) ==> Valid(o'))
  {
  }

  /** Creating a key pair emits exactly its three armors. */
  lemma CreateKeyPairEmits(o: Oracle, armor: KeyArmor, name: string, email: string,
                           userPin: string, vaultPassphrase: string, externalPassphrase: string, t: string)
    requires CreateKeyPair(o, armor, name, email, userPin, vaultPassphrase, externalPassphrase).Ok?
    ensures Emitted(CreateKeyPair(o, armor, name, email, userPin, vaultPassphrase, externalPassphrase).value.0, t) <==>
      Emitted(o, t) || t == armor.privateKey || t == armor.publicKey || t == armor.revocationCertificate
  {
  }

  /**
    Armor is fresh after a key pair is created exactly when it was fresh
    before and shares no text with that key pair's armor.
   */
  lemma CreateKeyPairFreshIff(o: Oracle, armor: KeyArmor, name: string, email: string,
                              userPin: string, vaultPassphrase: string, externalPassphrase: string, other: KeyArmor)
    requires CreateKeyPair(o, armor, name, email, userPin, vaultPassphrase, externalPassphrase).Ok?
    ensures FreshKeyArmor(CreateKeyPair(o, armor, name, email, userPin, vaultPassphrase, externalPassphrase).value.0, other) <==>
      FreshKeyArmor(o, other) && armor.Texts() !! other.Texts()
  {
    CreateKeyPairEmits(o, armor, name, email, userPin, vaultPassphrase, externalPassphrase, other.privateKey);
    CreateKeyPairEmits(o, armor, name, email, userPin, vaultPassphrase, externalPassphrase, other.publicKey);
    CreateKeyPairEmits(o, armor, name, email, userPin, vaultPassphrase, externalPassphrase, other.revocationCertificate);
  }

  /**
    The library holds the key pair `key`: `key` is the hex of the armor
    `armor`, whose private key the oracle holds for identity `id` locked
    under `lock`, and whose public key reads back as `id`.
   */
  predicate Holds(o: Oracle, key: KeyPair, armor: KeyArmor, id: KeyId, lock: string) {
    && key == KeyPair(Utils.StringToHex(armor.privateKey), Utils.StringToHex(armor.publicKey),
                      Utils.StringToHex(armor.revocationCertificate))
    && armor.privateKey in o.privateKeys
    && o.privateKeys[armor.privateKey].id == id
    && o.privateKeys[armor.privateKey].lock == lock
    && Utils.HexToString(key.privateKey) == Some(armor.privateKey)
    && Utils.HexToString(key.publicKey) == Some(armor.publicKey)
    && armor.publicKey in o.publicKeys
    && ReadHexKey(o, key.publicKey) == Ok(id)
  }

  /**
    A created key pair is held by the library, hex-encoded, under a fresh
    identity and locked under the shares joined in order.
   */
  lemma CreateKeyPairHolds(o: Oracle, armor: KeyArmor, name: string, email: string,
                           userPin: string, vaultPassphrase: string, externalPassphrase: string)
    requires CreateKeyPair(o, armor, name, email, userPin, vaultPassphrase, externalPassphrase).Ok?
    ensures var (o', key) := CreateKeyPair(o, armor, name, email, userPin, vaultPassphrase, externalPassphrase).value;
      Holds(o', key, armor, KeyId(o.nextId), Passphrase(userPin, vaultPassphrase, externalPassphrase))
  {
  }

  /** What the library holds, it holds in every oracle extending it. */
  lemma HoldsStable(o1: Oracle, o2: Oracle, key: KeyPair, armor: KeyArmor, id: KeyId, lock: string)
    requires Extends(o1, o2) && Holds(o1, key, armor, id, lock)
    ensures Holds(o2, key, armor, id, lock)
  {
  }

  /** Encrypting adds exactly one message and keeps everything already produced. */
  lemma EncryptDataGrows(o: Oracle, input: string, hexPublicKeys: seq<string>, ciphertext: string)
    requires EncryptData(o, input, hexPublicKeys, ciphertext).Ok?
    ensures var o' := EncryptData(o, input, hexPublicKeys, ciphertext).value.0;
      && Extends(o, o')
      && !Emitted(o, ciphertext)
      && o' == o.(messages := o'.messages)
      && o'.messages.Keys == o.messages.Keys + {ciphertext}
      && (Valid(o) ==> Valid(o'))
  {
  }

  /**
    `armored` is an unlockable private key under `passphrase` that is among
    the recipients of the message armored as `message`.
   */
  predicate CanOpen(o: Oracle, message: string, armored: string, passphrase: string) {
    && armored in o.privateKeys
    && o.privateKeys[armored].lock == passphrase
    && message in o.messages
    && o.privateKeys[armored].id in o.messages[message].recipients
  }

  /**
    `decrypt_data` succeeds exactly when the hex key decodes to a private key
    that the composite passphrase unlocks and that the message was sealed to;
    it then returns the sealed plaintext.
   */
  lemma DecryptDataSucceedsIff(o: Oracle, message: string, hexKey: string, pin: string, vault: string, external: string)
    ensures DecryptData(o, message, hexKey, pin, vault, external).Ok? <==>
      Utils.HexToString(hexKey).Some? && CanOpen(o, message, Utils.HexToString(hexKey).value, Passphrase(pin, vault, external))
  {
  }

  /** A hex key that does not spell a private key the library holds fails with `InvalidKey`, whatever the shares. */
  lemma NotAPrivateKeyFails(o: Oracle, message: string, hexKey: string, pin: string, vault: string, external: string)
    requires Utils.HexToString(hexKey).Some? ==> Utils.HexToString(hexKey).value !in o.privateKeys
    ensures DecryptData(o, message, hexKey, pin, vault, external) == Err(InvalidKey)
  {
  }

  /** Only the joined passphrase matters: shares that join to the same text open the same messages. */
  lemma OnlyCompositeMatters(o: Oracle, message: string, hexKey: string,
                             pin1: string, vault1: string, external1: string,
                             pin2: string, vault2: string, external2: string)
    requires Passphrase(pin1, vault1, external1) == Passphrase(pin2, vault2, external2)
    ensures DecryptData(o, message, hexKey, pin1, vault1, external1) == DecryptData(o, message, hexKey, pin2, vault2, external2)
  {
  }

  /**
    The shares are joined with no separator, so only the joined text counts:
    the PIN "12" with vault passphrase "3" opens exactly what the PIN "1"
    with vault passphrase "23" opens.
   */
  lemma SharesNotDelimited(o: Oracle, message: string, hexKey: string)
    ensures DecryptData(o, message, hexKey, "12", "3") == DecryptData(o, message, hexKey, "1", "23")
  {
    assert Passphrase("12", "3") == Passphrase("1", "23");
    OnlyCompositeMatters(o, message, hexKey, "12", "3", "", "1", "23", "");
  }

  /**
    Shares that join to anything but the lock fail with `UnlockError`, and
    with nothing else: the error neither depends on which share was wrong
    nor looks at the message.
   */
  lemma WrongSharesFailAlike(o: Oracle, message1: string, message2: string, hexKey: string,
                             pin1: string, vault1: string, external1: string,
                             pin2: string, vault2: string, external2: string)
    requires Utils.HexToString(hexKey).Some? && Utils.HexToString(hexKey).value in o.privateKeys
    requires Passphrase(pin1, vault1, external1) != o.privateKeys[Utils.HexToString(hexKey).value].lock
    requires Passphrase(pin2, vault2, external2) != o.privateKeys[Utils.HexToString(hexKey).value].lock
    ensures DecryptData(o, message1, hexKey, pin1, vault1, external1) == Err(UnlockError)
    ensures DecryptData(o, message1, hexKey, pin1, vault1, external1) == DecryptData(o, message2, hexKey, pin2, vault2, external2)
  {
  }

  /** What an oracle that extends another can open, it opens to the same plaintext. */
  lemma DecryptStable(o1: Oracle, o2: Oracle, message: string, hexKey: string, pin: string, vault: string, external: string)
    requires Extends(o1, o2)
    requires DecryptData(o1, message, hexKey, pin, vault, external).Ok?
    ensures DecryptData(o2, message, hexKey, pin, vault, external) == DecryptData(o1, message, hexKey, pin, vault, external)
  {
    var armored := Utils.HexToString(hexKey).value;
    assert armored in o1.privateKeys && message in o1.messages;
  }

  lemma ExtendsTransitive(o1: Oracle, o2: Oracle, o3: Oracle)
    requires Extends(o1, o2) && Extends(o2, o3)
    ensures Extends(o1, o3)
  {
  }

  /**
    Sealing and opening round-trip: a message sealed to a list holding the
    public key of a private key opens, with shares joining to that key's
    lock, to exactly the sealed input.
   */
  lemma EncryptDecryptRoundTrip(o: Oracle, input: string, hexPublicKeys: seq<string>, ciphertext: string,
                                privateArmor: string, j: nat, pin: string, vault: string, external: string)
    requires EncryptData(o, input, hexPublicKeys, ciphertext).Ok?
    requires privateArmor in o.privateKeys && o.privateKeys[privateArmor].lock == Passphrase(pin, vault, external)
    requires j < |hexPublicKeys| && ReadHexKey(o, hexPublicKeys[j]) == Ok(o.privateKeys[privateArmor].id)
    ensures DecryptData(EncryptData(o, input, hexPublicKeys, ciphertext).value.0, ciphertext,
                        Utils.StringToHex(privateArmor), pin, vault, external) == Ok(input)
  {
    var o' := EncryptData(o, input, hexPublicKeys, ciphertext).value.0;
    Utils.RoundTrip(privateArmor);
    assert o'.messages[ciphertext].recipients[j] == o.privateKeys[privateArmor].id;
    assert CanOpen(o', ciphertext, privateArmor, Passphrase(pin, vault, external));
  }

  /**
    A key none of whose identity is on the recipient list cannot open the
    message, whatever the shares; with the right shares the failure is
    `NotARecipient`.
   */
  lemma NonRecipientExcluded(o: Oracle, input: string, hexPublicKeys: seq<string>, ciphertext: string,
                             privateArmor: string, pin: string, vault: string, external: string)
    requires EncryptData(o, input, hexPublicKeys, ciphertext).Ok?
    requires privateArmor in o.privateKeys
    requires forall i :: 0 <= i < |hexPublicKeys| ==> ReadHexKey(o, hexPublicKeys[i]) != Ok(o.privateKeys[privateArmor].id)
    ensures DecryptData(EncryptData(o, input, hexPublicKeys, ciphertext).value.0, ciphertext,
                        Utils.StringToHex(privateArmor), pin, vault, external).Err?
    ensures Passphrase(pin, vault, external) == o.privateKeys[privateArmor].lock ==>
      DecryptData(EncryptData(o, input, hexPublicKeys, ciphertext).value.0, ciphertext,
                  Utils.StringToHex(privateArmor), pin, vault, external) == Err(NotARecipient)
  {
    var o' := EncryptData(o, input, hexPublicKeys, ciphertext).value.0;
    var env := o'.messages[ciphertext];
    Utils.RoundTrip(privateArmor);
    forall i | 0 <= i < |env.recipients|
      ensures env.recipients[i] != o.privateKeys[privateArmor].id
    {
      assert ReadHexKey(o, hexPublicKeys[i]) == Ok(env.recipients[i]);
    }
  }

  /**
    A check of the randomness abstraction rather than of `encrypt_data`
    itself: sealing the same input to the same keys twice yields two
    different armored messages, because the second seal's randomness must
    be fresh after the first.
   */
  lemma SealTwiceDiffers(o: Oracle, input: string, hexPublicKeys: seq<string>, c1: string, c2: string)
    requires EncryptData(o, input, hexPublicKeys, c1).Ok?
    requires EncryptData(EncryptData(o, input, hexPublicKeys, c1).value.0, input, hexPublicKeys, c2).Ok?
    ensures EncryptData(o, input, hexPublicKeys, c1).value.1 != EncryptData(EncryptData(o, input, hexPublicKeys, c1).value.0, input, hexPublicKeys, c2).value.1
  {
    var o1 := EncryptData(o, input, hexPublicKeys, c1).value.0;
    assert Emitted(o1, c1);
  }
}
