/**
  The three-tier custody scenario of __tests__/flow.test.ts: an operation
  key, a backup key and a customer key; the wallet secret sealed to the
  customer and backup keys; the customer's private key sealed to the
  operation key; both blobs stored hex-encoded in an in-memory database; and
  recovery in two steps, operation key first, then customer key.
 */
module Flow {
  import opened Results
  import Hex
  import Utils
  import opened Pgp

  /** Known by the customer only. */
  const UserPin: string := "123456"
  /** Held in the vault service's environment, the same for every customer. */
  const VaultEnvPassphrase: string := "super_long_string_that_must_be_a_env_in_the_vault_service"
  /** Held per customer in an external database. */
  const UserSalt: string := "passphrase_saved_with_the_user_information_so_from_external_db_than_the_vault"
  /** Locks the operation key; held in the vault service's environment. */
  const OperationEnvPassphrase: string := "this_key_pair_encrypts_customer_keypair_in_the_database"
  /** Locks the backup key; held in cold storage. */
  const BackupColdPassphrase: string :=
    "this_key_pair_should_be_store_on_cold_storage_and_only_the_public_key_should_be_here_to_act_as_a_backup_in_case_the_user_forgets_its_pin"

  /** The user id a key pair is generated for. */
  datatype Identity = Identity(name: string, email: string)

  /**
    One deployment: who the three key pairs belong to, the customer's three
    shares, and the passphrases of the operation and backup keys.
   */
  datatype Config = Config(operation: Identity, backup: Identity, customer: Identity,
                           userPin: string, vaultPassphrase: string, userSalt: string,
                           operationPassphrase: string, backupPassphrase: string)
  {
    /** The lock of the customer key: all three shares, in order. */
    function CustomerLock(): string { Passphrase(userPin, vaultPassphrase, userSalt) }
  }

  /** The secrets of the scenario. */
  const Scenario: Config := Config(
    Identity("operation_key", "operation_key@studiowebux.com"),
    Identity("backup", "backup@studiowebux.com"),
    Identity("tommy", "tommy@studiowebux.com"),
    UserPin, VaultEnvPassphrase, UserSalt, OperationEnvPassphrase, BackupColdPassphrase)

  /** A wallet as the ledger library creates it; every field is opaque here. */
  datatype Wallet = Wallet(skey: string, pkey: string, keyHash: string,
                           addressMainnet: string, addressPreprod: string, addressPreview: string)

  datatype CardanoKeyRow = CardanoKeyRow(id: string, userId: string, pkey: string, keyHash: string,
                                         addressMainnet: string, addressPreprod: string, addressPreview: string,
                                         skey: string)

  datatype PgpKeyRow = PgpKeyRow(id: string, userId: string, publicKey: string, privateKey: string,
                                 revocationCertificate: string)

  /** The scenario's in-memory database: two tables of rows. */
  datatype Db = Db(cardanoKeys: seq<CardanoKeyRow>, pgpKeys: seq<PgpKeyRow>)

  const EmptyDb: Db := Db([], [])

  /** The fresh armored text the library emits during the scenario, in order of use. */
  datatype Randomness = Randomness(operation: KeyArmor, backup: KeyArmor, customer: KeyArmor,
                                   walletMessage: string, privateKeyMessage: string, revocationMessage: string)

  /** The three identities of the scenario, with the oracle that issued them. */
  datatype Tiers = Tiers(oracle: Oracle, operation: KeyPair, backup: KeyPair, customer: KeyPair)

  /** Everything provisioning produces. */
  datatype Provisioned = Provisioned(oracle: Oracle, tiers: Tiers, db: Db)

  /** The two values the scenario recovers, with what it provisioned. */
  datatype Outcome = Outcome(provisioned: Provisioned, decryptedPgpPrivateKey: string, decryptedCardanoSkey: string)

  // ----- Freshness of the library's randomness -----

  /** The armor of the three key pairs: nine distinct texts, none emitted before. */
  predicate FreshTierArmor(o: Oracle, rnd: Randomness) {
    && FreshKeyArmor(o, rnd.operation)
    && FreshKeyArmor(o, rnd.backup)
    && FreshKeyArmor(o, rnd.customer)
    && rnd.operation.Texts() !! rnd.backup.Texts()
    && rnd.operation.Texts() !! rnd.customer.Texts()
    && rnd.backup.Texts() !! rnd.customer.Texts()
  }

  /** A message text the library has not emitted and that is none of the tiers' armor. */
  predicate FreshMessage(o: Oracle, rnd: Randomness, m: string) {
    && !Emitted(o, m)
    && m !in rnd.operation.Texts()
    && m !in rnd.backup.Texts()
    && m !in rnd.customer.Texts()
  }

  /** The library's randomness did its job: twelve distinct texts, none emitted before. */
  predicate FreshRandomness(o: Oracle, rnd: Randomness) {
    && FreshTierArmor(o, rnd)
    && FreshMessage(o, rnd, rnd.walletMessage)
    && FreshMessage(o, rnd, rnd.privateKeyMessage)
    && FreshMessage(o, rnd, rnd.revocationMessage)
    && rnd.walletMessage != rnd.privateKeyMessage
    && rnd.walletMessage != rnd.revocationMessage
    && rnd.privateKeyMessage != rnd.revocationMessage
  }

  // ----- The identities -----

  /** The identities the scenario issues, in order of creation from `base`. */
  function OperationId(base: nat): KeyId { KeyId(base) }
  function BackupId(base: nat): KeyId { KeyId(base + 1) }
  function CustomerId(base: nat): KeyId { KeyId(base + 2) }

  /**
    The library holds the three tiers: the operation key locked with its one
    share, the backup key with its one share, the customer key with all three.
   */
  predicate TiersHeld(o: Oracle, c: Config, t: Tiers, rnd: Randomness, base: nat) {
    && Holds(o, t.operation, rnd.operation, OperationId(base), c.operationPassphrase)
    && Holds(o, t.backup, rnd.backup, BackupId(base), c.backupPassphrase)
    && Holds(o, t.customer, rnd.customer, CustomerId(base), c.CustomerLock())
  }

  /**
    The scenario's first step: the operation, backup and customer key pairs,
    created in that order. It fails only when the library's randomness
    repeats itself.
   */
  function CreateTiers(o: Oracle, c: Config, rnd: Randomness): (r: Result<Tiers>)
    ensures r.Err? ==> r.error == GenerationError
  {
    var step1 :- CreateKeyPair(o, rnd.operation, c.operation.name, c.operation.email, c.operationPassphrase);
    var (o1, operation) := step1;
    var step2 :- CreateKeyPair(o1, rnd.backup, c.backup.name, c.backup.email, c.backupPassphrase);
    var (o2, backup) := step2;
    var step3 :- CreateKeyPair(o2, rnd.customer, c.customer.name, c.customer.email, c.userPin, c.vaultPassphrase, c.userSalt);
    var (o3, customer) := step3;
    Ok(Tiers(o3, operation, backup, customer))
  }

  /** Fresh armor is all creating the tiers needs. */
  lemma CreateTiersSucceeds(o: Oracle, c: Config, rnd: Randomness)
    requires FreshTierArmor(o, rnd)
    ensures CreateTiers(o, c, rnd).Ok?
  {
    var o1 := CreateKeyPair(o, rnd.operation, c.operation.name, c.operation.email, c.operationPassphrase).value.0;
    CreateKeyPairFreshIff(o, rnd.operation, c.operation.name, c.operation.email, c.operationPassphrase, "", "", rnd.backup);
    CreateKeyPairFreshIff(o, rnd.operation, c.operation.name, c.operation.email, c.operationPassphrase, "", "", rnd.customer);
    CreateKeyPairFreshIff(o1, rnd.backup, c.backup.name, c.backup.email, c.backupPassphrase, "", "", rnd.customer);
  }

  /** Creating the tiers issues three identities and three armors, and keeps everything already produced. */
  lemma CreateTiersGrows(o: Oracle, c: Config, rnd: Randomness)
    requires CreateTiers(o, c, rnd).Ok?
    ensures var o' := CreateTiers(o, c, rnd).value.oracle;
      && Extends(o, o')
      && o'.nextId == o.nextId + 3
      && o'.messages == o.messages
      && o'.privateKeys.Keys == o.privateKeys.Keys + {rnd.operation.privateKey, rnd.backup.privateKey, rnd.customer.privateKey}
  {
    var (o1, _) := CreateKeyPair(o, rnd.operation, c.operation.name, c.operation.email, c.operationPassphrase).value;
    CreateKeyPairGrows(o, rnd.operation, c.operation.name, c.operation.email, c.operationPassphrase, "", "");
    var (o2, _) := CreateKeyPair(o1, rnd.backup, c.backup.name, c.backup.email, c.backupPassphrase).value;
    CreateKeyPairGrows(o1, rnd.backup, c.backup.name, c.backup.email, c.backupPassphrase, "", "");
    CreateKeyPairGrows(o2, rnd.customer, c.customer.name, c.customer.email, c.userPin, c.vaultPassphrase, c.userSalt);
    var o3 := CreateTiers(o, c, rnd).value.oracle;
    ExtendsTransitive(o, o1, o2);
    ExtendsTransitive(o, o2, o3);
  }

  /** After the tiers are created, the library has emitted exactly their nine armors besides what it had emitted before. */
  lemma CreateTiersEmitted(o: Oracle, c: Config, rnd: Randomness, t: string)
    requires CreateTiers(o, c, rnd).Ok?
    ensures Emitted(CreateTiers(o, c, rnd).value.oracle, t) <==>
      Emitted(o, t) || t in rnd.operation.Texts() || t in rnd.backup.Texts() || t in rnd.customer.Texts()
  {
    var (o1, _) := CreateKeyPair(o, rnd.operation, c.operation.name, c.operation.email, c.operationPassphrase).value;
    CreateKeyPairEmits(o, rnd.operation, c.operation.name, c.operation.email, c.operationPassphrase, "", "", t);
    var (o2, _) := CreateKeyPair(o1, rnd.backup, c.backup.name, c.backup.email, c.backupPassphrase).value;
    CreateKeyPairEmits(o1, rnd.backup, c.backup.name, c.backup.email, c.backupPassphrase, "", "", t);
    CreateKeyPairEmits(o2, rnd.customer, c.customer.name, c.customer.email, c.userPin, c.vaultPassphrase, c.userSalt, t);
  }

  /** Creating the tiers keeps the library's bookkeeping consistent. */
  lemma CreateTiersValid(o: Oracle, c: Config, rnd: Randomness)
    requires CreateTiers(o, c, rnd).Ok? && Valid(o)
    ensures Valid(CreateTiers(o, c, rnd).value.oracle)
  {
    var (o1, _) := CreateKeyPair(o, rnd.operation, c.operation.name, c.operation.email, c.operationPassphrase).value;
    CreateKeyPairGrows(o, rnd.operation, c.operation.name, c.operation.email, c.operationPassphrase, "", "");
    var (o2, _) := CreateKeyPair(o1, rnd.backup, c.backup.name, c.backup.email, c.backupPassphrase).value;
    CreateKeyPairGrows(o1, rnd.backup, c.backup.name, c.backup.email, c.backupPassphrase, "", "");
    CreateKeyPairGrows(o2, rnd.customer, c.customer.name, c.customer.email, c.userPin, c.vaultPassphrase, c.userSalt);
  }

  /** Created tiers: each key is held under its own identity and its own lock. */
  lemma CreateTiersHolds(o: Oracle, c: Config, rnd: Randomness)
    requires CreateTiers(o, c, rnd).Ok?
    ensures var t := CreateTiers(o, c, rnd).value; TiersHeld(t.oracle, c, t, rnd, o.nextId)
  {
    OperationHeld(o, c, rnd);
    BackupHeld(o, c, rnd);
    CustomerHeld(o, c, rnd);
  }

  lemma OperationHeld(o: Oracle, c: Config, rnd: Randomness)
    requires CreateTiers(o, c, rnd).Ok?
    ensures var t := CreateTiers(o, c, rnd).value;
      Holds(t.oracle, t.operation, rnd.operation, OperationId(o.nextId), c.operationPassphrase)
  {
    var (o1, operation) := CreateKeyPair(o, rnd.operation, c.operation.name, c.operation.email, c.operationPassphrase).value;
    CreateKeyPairHolds(o, rnd.operation, c.operation.name, c.operation.email, c.operationPassphrase, "", "");
    var o2 := CreateKeyPair(o1, rnd.backup, c.backup.name, c.backup.email, c.backupPassphrase).value.0;
    CreateKeyPairGrows(o1, rnd.backup, c.backup.name, c.backup.email, c.backupPassphrase, "", "");
    CreateKeyPairGrows(o2, rnd.customer, c.customer.name, c.customer.email, c.userPin, c.vaultPassphrase, c.userSalt);
    var o3 := CreateTiers(o, c, rnd).value.oracle;
    ExtendsTransitive(o1, o2, o3);
    HoldsStable(o1, o3, operation, rnd.operation, OperationId(o.nextId), c.operationPassphrase);
  }

  lemma BackupHeld(o: Oracle, c: Config, rnd: Randomness)
    requires CreateTiers(o, c, rnd).Ok?
    ensures var t := CreateTiers(o, c, rnd).value;
      Holds(t.oracle, t.backup, rnd.backup, BackupId(o.nextId), c.backupPassphrase)
  {
    var o1 := CreateKeyPair(o, rnd.operation, c.operation.name, c.operation.email, c.operationPassphrase).value.0;
    var (o2, backup) := CreateKeyPair(o1, rnd.backup, c.backup.name, c.backup.email, c.backupPassphrase).value;
    CreateKeyPairHolds(o1, rnd.backup, c.backup.name, c.backup.email, c.backupPassphrase, "", "");
    CreateKeyPairGrows(o2, rnd.customer, c.customer.name, c.customer.email, c.userPin, c.vaultPassphrase, c.userSalt);
    var o3 := CreateTiers(o, c, rnd).value.oracle;
    HoldsStable(o2, o3, backup, rnd.backup, BackupId(o.nextId), c.backupPassphrase);
  }

  lemma CustomerHeld(o: Oracle, c: Config, rnd: Randomness)
    requires CreateTiers(o, c, rnd).Ok?
    ensures var t := CreateTiers(o, c, rnd).value;
      Holds(t.oracle, t.customer, rnd.customer, CustomerId(o.nextId), c.CustomerLock())
  {
    var o1 := CreateKeyPair(o, rnd.operation, c.operation.name, c.operation.email, c.operationPassphrase).value.0;
    var o2 := CreateKeyPair(o1, rnd.backup, c.backup.name, c.backup.email, c.backupPassphrase).value.0;
    CreateKeyPairHolds(o2, rnd.customer, c.customer.name, c.customer.email, c.userPin, c.vaultPassphrase, c.userSalt);
  }

  // ----- Sealing and storing -----

  /** The wallet's row; its secret key is stored as the hex of the sealed message. */
  function WalletRow(wallet: Wallet, encryptedSkey: string): CardanoKeyRow {
    CardanoKeyRow("MOCK", "MOCK", wallet.pkey, wallet.keyHash, wallet.addressMainnet, wallet.addressPreprod,
                  wallet.addressPreview, Utils.StringToHex(encryptedSkey))
  }

  /** The customer key's row; the public key in the clear, the rest as hex of sealed messages. */
  function CustomerKeyRow(customer: KeyPair, encryptedPrivateKey: string, encryptedRevocation: string): PgpKeyRow {
    PgpKeyRow("MOCK", "MOCK", customer.publicKey, Utils.StringToHex(encryptedPrivateKey), Utils.StringToHex(encryptedRevocation))
  }

  /**
    The wallet's secret key sealed to the customer and backup keys, then
    stored: the wallet table gains one row, whose secret-key field decodes
    to a message holding the secret key; the key table is untouched.
   */
  function StoreWallet(o: Oracle, db: Db, t: Tiers, wallet: Wallet, ciphertext: string): (r: Result<(Oracle, Db)>)
    ensures r.Ok? ==> var (o', db') := r.value;
      && db'.pgpKeys == db.pgpKeys
      && |db'.cardanoKeys| == |db.cardanoKeys| + 1
      && db'.cardanoKeys[..|db.cardanoKeys|] == db.cardanoKeys
      && Utils.HexToString(db'.cardanoKeys[|db.cardanoKeys|].skey) == Some(ciphertext)
      && ciphertext in o'.messages
      && o'.messages[ciphertext].plaintext == wallet.skey
    ensures r.Err? ==> r.error == InvalidKey || r.error == GenerationError
  {
    var sealed :- EncryptData(o, wallet.skey, [t.customer.publicKey, t.backup.publicKey], ciphertext);
    var (o', encryptedSkey) := sealed;
    Utils.RoundTrip(encryptedSkey);
    Ok((o', db.(cardanoKeys := db.cardanoKeys + [WalletRow(wallet, encryptedSkey)])))
  }

  /**
    The customer's private key and revocation certificate, each sealed to
    the operation key alone, then stored with the public key: the key table
    gains one row, keeping the public key as given and the private key only
    as the hex of a message holding it; the wallet table is untouched.
   */
  function StoreCustomerKey(o: Oracle, db: Db, t: Tiers, privateKeyMessage: string, revocationMessage: string): (r: Result<(Oracle, Db)>)
    ensures r.Ok? ==> var (o', db') := r.value;
      && db'.cardanoKeys == db.cardanoKeys
      && |db'.pgpKeys| == |db.pgpKeys| + 1
      && db'.pgpKeys[..|db.pgpKeys|] == db.pgpKeys
      && db'.pgpKeys[|db.pgpKeys|].publicKey == t.customer.publicKey
      && Utils.HexToString(db'.pgpKeys[|db.pgpKeys|].privateKey) == Some(privateKeyMessage)
      && privateKeyMessage in o'.messages
      && o'.messages[privateKeyMessage].plaintext == t.customer.privateKey
    ensures r.Err? ==> r.error == InvalidKey || r.error == GenerationError
  {
    var sealedKey :- EncryptData(o, t.customer.privateKey, [t.operation.publicKey], privateKeyMessage);
    var (o1, encryptedPrivateKey) := sealedKey;
    var sealedRevocation :- EncryptData(o1, t.customer.revocationCertificate, [t.operation.publicKey], revocationMessage);
    var (o2, encryptedRevocation) := sealedRevocation;
    Utils.RoundTrip(encryptedPrivateKey);
    assert privateKeyMessage in o1.messages && privateKeyMessage != revocationMessage;
    Ok((o2, db.(pgpKeys := db.pgpKeys + [CustomerKeyRow(t.customer, encryptedPrivateKey, encryptedRevocation)])))
  }

  /**
    With the tiers held and a fresh ciphertext, storing the wallet succeeds:
    one new message holding the secret key, sealed to exactly the customer
    and backup identities in that order, and one new row holding its hex.
   */
  lemma StoreWalletShape(o: Oracle, db: Db, c: Config, t: Tiers, rnd: Randomness, base: nat, wallet: Wallet, ciphertext: string)
    requires TiersHeld(o, c, t, rnd, base) && !Emitted(o, ciphertext)
    ensures StoreWallet(o, db, t, wallet, ciphertext).Ok?
    ensures var (o', db') := StoreWallet(o, db, t, wallet, ciphertext).value;
      && ciphertext in o'.messages
      && o'.messages[ciphertext] == Envelope(wallet.skey, [CustomerId(base), BackupId(base)])
      && db' == db.(cardanoKeys := db.cardanoKeys + [WalletRow(wallet, ciphertext)])
      && Extends(o, o')
      && o' == o.(messages := o'.messages)
      && o'.messages.Keys == o.messages.Keys + {ciphertext}
      && (Valid(o) ==> Valid(o'))
      && TiersHeld(o', c, t, rnd, base)
  {
    var keys := [t.customer.publicKey, t.backup.publicKey];
    EncryptDataGrows(o, wallet.skey, keys, ciphertext);
    var o' := EncryptData(o, wallet.skey, keys, ciphertext).value.0;
    assert ReadHexKey(o, keys[0]) == Ok(CustomerId(base));
    assert ReadHexKey(o, keys[1]) == Ok(BackupId(base));
    assert o'.messages[ciphertext].recipients == [CustomerId(base), BackupId(base)];
    HoldsStable(o, o', t.operation, rnd.operation, OperationId(base), c.operationPassphrase);
    HoldsStable(o, o', t.backup, rnd.backup, BackupId(base), c.backupPassphrase);
    HoldsStable(o, o', t.customer, rnd.customer, CustomerId(base), c.CustomerLock());
  }

  /**
    With the tiers held and two distinct fresh ciphertexts, storing the
    customer key succeeds: the private key and the revocation certificate
    each sealed to the operation identity alone, and one new row.
   */
  lemma StoreCustomerKeyShape(o: Oracle, db: Db, c: Config, t: Tiers, rnd: Randomness, base: nat,
                              privateKeyMessage: string, revocationMessage: string)
    requires TiersHeld(o, c, t, rnd, base)
    requires !Emitted(o, privateKeyMessage) && !Emitted(o, revocationMessage) && privateKeyMessage != revocationMessage
    ensures StoreCustomerKey(o, db, t, privateKeyMessage, revocationMessage).Ok?
    ensures var (o', db') := StoreCustomerKey(o, db, t, privateKeyMessage, revocationMessage).value;
      && privateKeyMessage in o'.messages
      && o'.messages[privateKeyMessage] == Envelope(t.customer.privateKey, [OperationId(base)])
      && revocationMessage in o'.messages
      && o'.messages[revocationMessage] == Envelope(t.customer.revocationCertificate, [OperationId(base)])
      && db' == db.(pgpKeys := db.pgpKeys + [CustomerKeyRow(t.customer, privateKeyMessage, revocationMessage)])
      && Extends(o, o')
      && o' == o.(messages := o'.messages)
      && o'.messages.Keys == o.messages.Keys + {privateKeyMessage, revocationMessage}
      && (Valid(o) ==> Valid(o'))
      && TiersHeld(o', c, t, rnd, base)
  {
    SealToOperation(o, c, t, rnd, base, t.customer.privateKey, privateKeyMessage);
    var o1 := EncryptData(o, t.customer.privateKey, [t.operation.publicKey], privateKeyMessage).value.0;
    SealToOperation(o1, c, t, rnd, base, t.customer.revocationCertificate, revocationMessage);
    var o2 := EncryptData(o1, t.customer.revocationCertificate, [t.operation.publicKey], revocationMessage).value.0;
    ExtendsTransitive(o, o1, o2);
  }

  /** Sealing to the operation key alone: one new message, sealed to exactly the operation identity. */
  lemma SealToOperation(o: Oracle, c: Config, t: Tiers, rnd: Randomness, base: nat, plaintext: string, ciphertext: string)
    requires TiersHeld(o, c, t, rnd, base) && !Emitted(o, ciphertext)
    ensures EncryptData(o, plaintext, [t.operation.publicKey], ciphertext).Ok?
    ensures var o' := EncryptData(o, plaintext, [t.operation.publicKey], ciphertext).value.0;
      && o'.messages[ciphertext] == Envelope(plaintext, [OperationId(base)])
      && Extends(o, o')
      && o' == o.(messages := o'.messages)
      && o'.messages.Keys == o.messages.Keys + {ciphertext}
      && (Valid(o) ==> Valid(o'))
      && TiersHeld(o', c, t, rnd, base)
  {
    var keys := [t.operation.publicKey];
    EncryptDataGrows(o, plaintext, keys, ciphertext);
    var o' := EncryptData(o, plaintext, keys, ciphertext).value.0;
    assert ReadHexKey(o, keys[0]) == Ok(OperationId(base));
    assert o'.messages[ciphertext].recipients == [OperationId(base)];
    HoldsStable(o, o', t.operation, rnd.operation, OperationId(base), c.operationPassphrase);
    HoldsStable(o, o', t.backup, rnd.backup, BackupId(base), c.backupPassphrase);
    HoldsStable(o, o', t.customer, rnd.customer, CustomerId(base), c.CustomerLock());
  }

  /**
    Provisioning: the three tiers created, then the wallet and the customer
    key sealed and stored, one row appended to each table.
   */
  function Provision(o: Oracle, c: Config, rnd: Randomness, wallet: Wallet, db: Db): (r: Result<Provisioned>)
    ensures r.Ok? ==>
      && |r.value.db.cardanoKeys| == |db.cardanoKeys| + 1
      && r.value.db.cardanoKeys[..|db.cardanoKeys|] == db.cardanoKeys
      && |r.value.db.pgpKeys| == |db.pgpKeys| + 1
      && r.value.db.pgpKeys[..|db.pgpKeys|] == db.pgpKeys
    ensures r.Err? ==> r.error == InvalidKey || r.error == GenerationError
  {
    var t :- CreateTiers(o, c, rnd);
    var stored :- StoreWallet(t.oracle, db, t, wallet, rnd.walletMessage);
    var (o1, db1) := stored;
    var storedKey :- StoreCustomerKey(o1, db1, t, rnd.privateKeyMessage, rnd.revocationMessage);
    var (o2, db2) := storedKey;
    Ok(Provisioned(o2, t, db2))
  }

  /**
    The custody arrangement provisioning leaves: the tiers held; the wallet
    secret sealed to exactly the customer and backup identities; the
    customer's private key and revocation certificate each sealed to exactly
    the operation identity; one row appended to each table; nothing that
    was produced before lost.
   */
  predicate Custody(o: Oracle, c: Config, rnd: Randomness, wallet: Wallet, db: Db, p: Provisioned) {
    var base := o.nextId;
    var m := p.oracle.messages;
    && TiersHeld(p.oracle, c, p.tiers, rnd, base)
    && rnd.walletMessage in m
    && m[rnd.walletMessage] == Envelope(wallet.skey, [CustomerId(base), BackupId(base)])
    && rnd.privateKeyMessage in m
    && m[rnd.privateKeyMessage] == Envelope(p.tiers.customer.privateKey, [OperationId(base)])
    && rnd.revocationMessage in m
    && m[rnd.revocationMessage] == Envelope(p.tiers.customer.revocationCertificate, [OperationId(base)])
    && p.db.cardanoKeys == db.cardanoKeys + [WalletRow(wallet, rnd.walletMessage)]
    && p.db.pgpKeys == db.pgpKeys + [CustomerKeyRow(p.tiers.customer, rnd.privateKeyMessage, rnd.revocationMessage)]
    && Extends(o, p.oracle)
    && p.oracle.nextId == o.nextId + 3
    && p.oracle.privateKeys.Keys == o.privateKeys.Keys + {rnd.operation.privateKey, rnd.backup.privateKey, rnd.customer.privateKey}
    && (Valid(o) ==> Valid(p.oracle))
  }

  /** Fresh randomness is all provisioning needs, and it leaves the custody arrangement. */
  lemma ProvisionCustody(o: Oracle, c: Config, rnd: Randomness, wallet: Wallet, db: Db)
    requires FreshRandomness(o, rnd)
    ensures Provision(o, c, rnd, wallet, db).Ok?
    ensures Custody(o, c, rnd, wallet, db, Provision(o, c, rnd, wallet, db).value)
  {
    CreateTiersSucceeds(o, c, rnd);
    var t := CreateTiers(o, c, rnd).value;
    CreateTiersGrows(o, c, rnd);
    CreateTiersHolds(o, c, rnd);
    if Valid(o) {
      CreateTiersValid(o, c, rnd);
    }
    CreateTiersEmitted(o, c, rnd, rnd.walletMessage);
    CreateTiersEmitted(o, c, rnd, rnd.privateKeyMessage);
    CreateTiersEmitted(o, c, rnd, rnd.revocationMessage);
    StoreWalletShape(t.oracle, db, c, t, rnd, o.nextId, wallet, rnd.walletMessage);
    var (o1, db1) := StoreWallet(t.oracle, db, t, wallet, rnd.walletMessage).value;
    StoreCustomerKeyShape(o1, db1, c, t, rnd, o.nextId, rnd.privateKeyMessage, rnd.revocationMessage);
    var (o2, db2) := StoreCustomerKey(o1, db1, t, rnd.privateKeyMessage, rnd.revocationMessage).value;
    ExtendsTransitive(o, t.oracle, o1);
    ExtendsTransitive(o, o1, o2);
  }

  // ----- Recovery -----

  /** A stored blob: the hex of an armored message, read back as the armored text by both recovery steps. */
  function StoredMessage(blob: string): (r: Result<string>)
    ensures r.Ok? <==> Utils.HexToString(blob).Some?
    ensures r.Ok? ==> Utils.StringToHex(r.value) == Hex.Lower(blob)
    ensures r.Err? ==> r.error == MalformedEnvelope
  {
    match Utils.HexToString(blob)
    case None => Err(MalformedEnvelope)
    case Some(message) =>
      Utils.InverseRoundTrip(blob);
      Ok(message)
  }

  /**
    Recovery step one: the vault service opens the customer's private key
    from the first key row, with the operation key and its passphrase. What
    it returns is the plaintext of the message that row's blob spells.
   */
  function RecoverCustomerKey(o: Oracle, db: Db, operation: KeyPair, c: Config): (r: Result<string>)
    ensures r == Err(MissingRecord) <==> |db.pgpKeys| == 0
    ensures r.Err? ==> r.error in {MissingRecord, InvalidKey, UnlockError, MalformedEnvelope, NotARecipient}
    ensures r.Ok? ==>
      && Utils.HexToString(db.pgpKeys[0].privateKey).Some?
      && Utils.HexToString(db.pgpKeys[0].privateKey).value in o.messages
      && r.value == o.messages[Utils.HexToString(db.pgpKeys[0].privateKey).value].plaintext
  {
    if |db.pgpKeys| == 0 then Err(MissingRecord)
    else
      var message :- StoredMessage(db.pgpKeys[0].privateKey);
      DecryptData(o, message, operation.privateKey, c.operationPassphrase)
  }

  /**
    Recovery step two: the recovered customer key opens the wallet's secret
    key from the first wallet row, with the customer's three shares. What it
    returns is the plaintext of the message that row's blob spells.
   */
  function RecoverWalletKey(o: Oracle, db: Db, customerPrivateKey: string, c: Config): (r: Result<string>)
    ensures r == Err(MissingRecord) <==> |db.cardanoKeys| == 0
    ensures r.Err? ==> r.error in {MissingRecord, InvalidKey, UnlockError, MalformedEnvelope, NotARecipient}
    ensures r.Ok? ==>
      && Utils.HexToString(db.cardanoKeys[0].skey).Some?
      && Utils.HexToString(db.cardanoKeys[0].skey).value in o.messages
      && r.value == o.messages[Utils.HexToString(db.cardanoKeys[0].skey).value].plaintext
  {
    if |db.cardanoKeys| == 0 then Err(MissingRecord)
    else
      var message :- StoredMessage(db.cardanoKeys[0].skey);
      DecryptData(o, message, customerPrivateKey, c.userPin, c.vaultPassphrase, c.userSalt)
  }

  /**
    The whole scenario: provisioning into an empty database, then the two
    recovery steps. Recovery always finds the rows provisioning appended, so
    a failure is never `MissingRecord`.
   */
  function ProposedFlow(o: Oracle, c: Config, rnd: Randomness, wallet: Wallet): (r: Result<Outcome>)
    ensures r.Ok? ==> |r.value.provisioned.db.cardanoKeys| == 1 && |r.value.provisioned.db.pgpKeys| == 1
    ensures r.Err? ==> r.error != MissingRecord && r.error != NoRecipients
  {
    var p :- Provision(o, c, rnd, wallet, EmptyDb);
    var privateKey :- RecoverCustomerKey(p.oracle, p.db, p.tiers.operation, c);
    var skey :- RecoverWalletKey(p.oracle, p.db, privateKey, c);
    Ok(Outcome(p, privateKey, skey))
  }

  // ----- Properties of the scenario -----

  /** Creating the tiers succeeds only on fresh armor: the converse of `CreateTiersSucceeds`. */
  lemma CreateTiersNeedsFresh(o: Oracle, c: Config, rnd: Randomness)
    requires CreateTiers(o, c, rnd).Ok?
    ensures FreshTierArmor(o, rnd)
  {
    var o1 := CreateKeyPair(o, rnd.operation, c.operation.name, c.operation.email, c.operationPassphrase).value.0;
    CreateKeyPairFreshIff(o, rnd.operation, c.operation.name, c.operation.email, c.operationPassphrase, "", "", rnd.backup);
    CreateKeyPairFreshIff(o, rnd.operation, c.operation.name, c.operation.email, c.operationPassphrase, "", "", rnd.customer);
    CreateKeyPairFreshIff(o1, rnd.backup, c.backup.name, c.backup.email, c.backupPassphrase, "", "", rnd.customer);
  }

  /**
    Provisioning succeeds only when the randomness is fresh: with
    `ProvisionCustody`, provisioning succeeds exactly on fresh randomness.
   */
  lemma ProvisionNeedsFresh(o: Oracle, c: Config, rnd: Randomness, wallet: Wallet, db: Db)
    requires Provision(o, c, rnd, wallet, db).Ok?
    ensures FreshRandomness(o, rnd)
  {
    CreateTiersNeedsFresh(o, c, rnd);
    var t := CreateTiers(o, c, rnd).value;
    var (o1, db1) := StoreWallet(t.oracle, db, t, wallet, rnd.walletMessage).value;
    StoreWalletEmits(t.oracle, db, t, wallet, rnd.walletMessage, rnd.privateKeyMessage);
    StoreWalletEmits(t.oracle, db, t, wallet, rnd.walletMessage, rnd.revocationMessage);
    StoreCustomerKeyNeedsFresh(o1, db1, t, rnd.privateKeyMessage, rnd.revocationMessage);
    CreateTiersEmitted(o, c, rnd, rnd.walletMessage);
    CreateTiersEmitted(o, c, rnd, rnd.privateKeyMessage);
    CreateTiersEmitted(o, c, rnd, rnd.revocationMessage);
  }

  /** Storing the wallet emits exactly its one ciphertext, which must be fresh. */
  lemma StoreWalletEmits(o: Oracle, db: Db, t: Tiers, wallet: Wallet, ciphertext: string, x: string)
    requires StoreWallet(o, db, t, wallet, ciphertext).Ok?
    ensures !Emitted(o, ciphertext)
    ensures Emitted(StoreWallet(o, db, t, wallet, ciphertext).value.0, x) <==> Emitted(o, x) || x == ciphertext
  {
    EncryptDataGrows(o, wallet.skey, [t.customer.publicKey, t.backup.publicKey], ciphertext);
  }

  /** Storing the customer key needs two distinct fresh ciphertexts. */
  lemma StoreCustomerKeyNeedsFresh(o: Oracle, db: Db, t: Tiers, privateKeyMessage: string, revocationMessage: string)
    requires StoreCustomerKey(o, db, t, privateKeyMessage, revocationMessage).Ok?
    ensures !Emitted(o, privateKeyMessage) && !Emitted(o, revocationMessage) && privateKeyMessage != revocationMessage
  {
    var keys := [t.operation.publicKey];
    EncryptDataGrows(o, t.customer.privateKey, keys, privateKeyMessage);
    var o1 := EncryptData(o, t.customer.privateKey, keys, privateKeyMessage).value.0;
    EncryptDataGrows(o1, t.customer.revocationCertificate, keys, revocationMessage);
  }

  /**
    Recovery step one: when the database held no key row
    before provisioning, the operation key and its passphrase open the
    stored blob to exactly the customer's hex-encoded private key.
   */
  lemma RecoverCustomerKeyFromCustody(o: Oracle, c: Config, rnd: Randomness, wallet: Wallet, db: Db, p: Provisioned)
    requires Custody(o, c, rnd, wallet, db, p) && db.pgpKeys == []
    ensures RecoverCustomerKey(p.oracle, p.db, p.tiers.operation, c) == Ok(p.tiers.customer.privateKey)
  {
    Utils.RoundTrip(rnd.privateKeyMessage);
    assert p.db.pgpKeys[0].privateKey == Utils.StringToHex(rnd.privateKeyMessage);
    assert CanOpen(p.oracle, rnd.privateKeyMessage, rnd.operation.privateKey, Passphrase(c.operationPassphrase));
    DecryptDataSucceedsIff(p.oracle, rnd.privateKeyMessage, p.tiers.operation.privateKey, c.operationPassphrase, "", "");
  }

  /**
    Recovery step two: when the database held no wallet row
    before provisioning, the customer's private key and the three shares
    open the stored blob to exactly the wallet's secret key.
   */
  lemma RecoverWalletKeyFromCustody(o: Oracle, c: Config, rnd: Randomness, wallet: Wallet, db: Db, p: Provisioned)
    requires Custody(o, c, rnd, wallet, db, p) && db.cardanoKeys == []
    ensures RecoverWalletKey(p.oracle, p.db, p.tiers.customer.privateKey, c) == Ok(wallet.skey)
  {
    Utils.RoundTrip(rnd.walletMessage);
    assert p.db.cardanoKeys[0].skey == Utils.StringToHex(rnd.walletMessage);
    assert CanOpen(p.oracle, rnd.walletMessage, rnd.customer.privateKey, c.CustomerLock());
    DecryptDataSucceedsIff(p.oracle, rnd.walletMessage, p.tiers.customer.privateKey, c.userPin, c.vaultPassphrase, c.userSalt);
  }

  /**
    The scenario's two `assertEquals`: on fresh
    randomness the flow succeeds, recovering first the customer's private
    key and then the wallet's secret key.
   */
  lemma ProposedFlowSucceeds(o: Oracle, c: Config, rnd: Randomness, wallet: Wallet)
    requires FreshRandomness(o, rnd)
    ensures ProposedFlow(o, c, rnd, wallet).Ok?
    ensures var r := ProposedFlow(o, c, rnd, wallet).value;
      && r.decryptedPgpPrivateKey == r.provisioned.tiers.customer.privateKey
      && r.decryptedCardanoSkey == wallet.skey
      && (Valid(o) ==> Valid(r.provisioned.oracle))
  {
    ProvisionCustody(o, c, rnd, wallet, EmptyDb);
    var p := Provision(o, c, rnd, wallet, EmptyDb).value;
    RecoverCustomerKeyFromCustody(o, c, rnd, wallet, EmptyDb, p);
    RecoverWalletKeyFromCustody(o, c, rnd, wallet, EmptyDb, p);
  }

  /**
    The scenario as the test runs it: a library that has produced nothing
    yet and randomness that never repeats. Both recoveries succeed and the
    library stays consistent.
   */
  lemma FlowFromScratch(c: Config, rnd: Randomness, wallet: Wallet)
    requires FreshRandomness(Initial, rnd)
    ensures ProposedFlow(Initial, c, rnd, wallet).Ok?
    ensures var r := ProposedFlow(Initial, c, rnd, wallet).value;
      && r.decryptedPgpPrivateKey == r.provisioned.tiers.customer.privateKey
      && r.decryptedCardanoSkey == wallet.skey
      && Valid(r.provisioned.oracle)
  {
    ProposedFlowSucceeds(Initial, c, rnd, wallet);
    assert Valid(Initial);
  }

  /** The test's own secrets, from a library that has produced nothing: the customer gets the wallet secret back. */
  lemma ScenarioFromScratch(rnd: Randomness, wallet: Wallet)
    requires FreshRandomness(Initial, rnd)
    ensures ProposedFlow(Initial, Scenario, rnd, wallet).Ok?
    ensures ProposedFlow(Initial, Scenario, rnd, wallet).value.decryptedCardanoSkey == wallet.skey
  {
    FlowFromScratch(Scenario, rnd, wallet);
  }

  /** The flow fails exactly when the library's randomness repeats itself. */
  lemma ProposedFlowNeedsFresh(o: Oracle, c: Config, rnd: Randomness, wallet: Wallet)
    requires ProposedFlow(o, c, rnd, wallet).Ok?
    ensures FreshRandomness(o, rnd)
  {
    ProvisionNeedsFresh(o, c, rnd, wallet, EmptyDb);
  }

  // ----- Who can open what -----

  /**
    The backup path: the backup key with its cold-storage
    passphrase alone opens the stored wallet secret.
   */
  lemma BackupOpensWallet(o: Oracle, c: Config, rnd: Randomness, wallet: Wallet, db: Db, p: Provisioned)
    requires Custody(o, c, rnd, wallet, db, p)
    ensures DecryptData(p.oracle, rnd.walletMessage, p.tiers.backup.privateKey, c.backupPassphrase) == Ok(wallet.skey)
  {
    assert CanOpen(p.oracle, rnd.walletMessage, rnd.backup.privateKey, Passphrase(c.backupPassphrase));
    DecryptDataSucceedsIff(p.oracle, rnd.walletMessage, p.tiers.backup.privateKey, c.backupPassphrase, "", "");
  }

  /**
    Exactly two (key, passphrase) pairs open the wallet secret: the
    customer's private key with the three shares joined in order, and the
    backup key with its passphrase. Anything else fails.
   */
  lemma WalletOpeners(o: Oracle, c: Config, rnd: Randomness, wallet: Wallet, db: Db, p: Provisioned,
                      hexKey: string, pin: string, vault: string, external: string)
    requires Custody(o, c, rnd, wallet, db, p) && Valid(o)
    ensures DecryptData(p.oracle, rnd.walletMessage, hexKey, pin, vault, external).Ok? <==>
      || (Utils.HexToString(hexKey) == Some(rnd.customer.privateKey) && Passphrase(pin, vault, external) == c.CustomerLock())
      || (Utils.HexToString(hexKey) == Some(rnd.backup.privateKey) && Passphrase(pin, vault, external) == c.backupPassphrase)
  {
    DecryptDataSucceedsIff(p.oracle, rnd.walletMessage, hexKey, pin, vault, external);
    var ids := p.oracle.messages[rnd.walletMessage].recipients;
    assert ids == [CustomerId(o.nextId), BackupId(o.nextId)];
    match Utils.HexToString(hexKey)
    case None =>
    case Some(armored) =>
      if armored in p.oracle.privateKeys && p.oracle.privateKeys[armored].id in ids {
        if p.oracle.privateKeys[armored].id == CustomerId(o.nextId) {
          assert p.oracle.privateKeys[rnd.customer.privateKey].id == CustomerId(o.nextId);
        } else {
          assert p.oracle.privateKeys[rnd.backup.privateKey].id == BackupId(o.nextId);
        }
      }
  }

  /**
    Exactly one (key, passphrase) pair opens the stored customer key and its
    revocation certificate: the operation key with its passphrase.
   */
  lemma CustomerKeyOpeners(o: Oracle, c: Config, rnd: Randomness, wallet: Wallet, db: Db, p: Provisioned,
                           message: string, hexKey: string, pin: string, vault: string, external: string)
    requires Custody(o, c, rnd, wallet, db, p) && Valid(o)
    requires message == rnd.privateKeyMessage || message == rnd.revocationMessage
    ensures DecryptData(p.oracle, message, hexKey, pin, vault, external).Ok? <==>
      Utils.HexToString(hexKey) == Some(rnd.operation.privateKey) && Passphrase(pin, vault, external) == c.operationPassphrase
  {
    DecryptDataSucceedsIff(p.oracle, message, hexKey, pin, vault, external);
    assert p.oracle.messages[message].recipients == [OperationId(o.nextId)];
    match Utils.HexToString(hexKey)
    case None =>
    case Some(armored) =>
      if armored in p.oracle.privateKeys && p.oracle.privateKeys[armored].id == OperationId(o.nextId) {
        assert p.oracle.privateKeys[rnd.operation.privateKey].id == OperationId(o.nextId);
      }
  }

  /** The operation key cannot open the wallet secret, whatever passphrase it is given. */
  lemma OperationCannotOpenWallet(o: Oracle, c: Config, rnd: Randomness, wallet: Wallet, db: Db, p: Provisioned,
                                  pin: string, vault: string, external: string)
    requires Custody(o, c, rnd, wallet, db, p)
    ensures DecryptData(p.oracle, rnd.walletMessage, p.tiers.operation.privateKey, pin, vault, external).Err?
  {
    DecryptDataSucceedsIff(p.oracle, rnd.walletMessage, p.tiers.operation.privateKey, pin, vault, external);
    assert p.oracle.messages[rnd.walletMessage].recipients == [CustomerId(o.nextId), BackupId(o.nextId)];
  }

  /**
    The customer's key opens the wallet secret exactly under the three
    shares joined in order: a missing, extra or reordered share fails.
   */
  lemma CustomerNeedsAllShares(o: Oracle, c: Config, rnd: Randomness, wallet: Wallet, db: Db, p: Provisioned,
                               pin: string, vault: string, external: string)
    requires Custody(o, c, rnd, wallet, db, p)
    ensures DecryptData(p.oracle, rnd.walletMessage, p.tiers.customer.privateKey, pin, vault, external).Ok? <==>
      Passphrase(pin, vault, external) == c.CustomerLock()
    ensures Passphrase(pin, vault, external) != c.CustomerLock() ==>
      DecryptData(p.oracle, rnd.walletMessage, p.tiers.customer.privateKey, pin, vault, external) == Err(UnlockError)
  {
    DecryptDataSucceedsIff(p.oracle, rnd.walletMessage, p.tiers.customer.privateKey, pin, vault, external);
    assert p.oracle.messages[rnd.walletMessage].recipients == [CustomerId(o.nextId), BackupId(o.nextId)];
  }

  /**
    None of the four fields provisioning fills from the key pairs and the
    sealed messages (the new wallet row's `skey`, the new key row's
    `publicKey`, `privateKey` and `revocationCertificate`) opens the wallet
    secret, whatever the shares. The wallet row's other fields come from
    the `create_wallet` parameter and are outside this lemma.
   */
  lemma StoredFieldsCannotOpenWallet(o: Oracle, c: Config, rnd: Randomness, wallet: Wallet, db: Db, p: Provisioned,
                                     field: string, pin: string, vault: string, external: string)
    requires Custody(o, c, rnd, wallet, db, p) && FreshRandomness(o, rnd)
    requires field in {p.db.cardanoKeys[|db.cardanoKeys|].skey, p.db.pgpKeys[|db.pgpKeys|].publicKey,
                       p.db.pgpKeys[|db.pgpKeys|].privateKey, p.db.pgpKeys[|db.pgpKeys|].revocationCertificate}
    ensures DecryptData(p.oracle, rnd.walletMessage, field, pin, vault, external).Err?
  {
    StoredFieldText(o, c, rnd, wallet, db, p, field);
    var text := Utils.HexToString(field).value;
    assert text !in o.privateKeys;
    assert text != rnd.operation.privateKey && text != rnd.backup.privateKey && text != rnd.customer.privateKey;
    NotAPrivateKeyFails(p.oracle, rnd.walletMessage, field, pin, vault, external);
  }

  /**
    Each of the four fields provisioning fills from the key pairs and the
    sealed messages (the new wallet row's `skey`, the new key row's
    `publicKey`, `privateKey` and `revocationCertificate`) decodes to a
    sealed message or to the customer's public key.
   */
  lemma StoredFieldText(o: Oracle, c: Config, rnd: Randomness, wallet: Wallet, db: Db, p: Provisioned, field: string)
    requires Custody(o, c, rnd, wallet, db, p)
    requires field in {p.db.cardanoKeys[|db.cardanoKeys|].skey, p.db.pgpKeys[|db.pgpKeys|].publicKey,
                       p.db.pgpKeys[|db.pgpKeys|].privateKey, p.db.pgpKeys[|db.pgpKeys|].revocationCertificate}
    ensures Utils.HexToString(field).Some?
    ensures Utils.HexToString(field).value in {rnd.walletMessage, rnd.privateKeyMessage, rnd.revocationMessage, rnd.customer.publicKey}
  {
    Utils.RoundTrip(rnd.walletMessage);
    Utils.RoundTrip(rnd.privateKeyMessage);
    Utils.RoundTrip(rnd.revocationMessage);
  }

  /**
    The customer's private key is not stored in the clear: none of the four
    fields provisioning fills from the key pairs and the sealed messages (the
    new wallet row's `skey`, the new key row's `publicKey`, `privateKey` and
    `revocationCertificate`) is that key or decodes to its armor. It is
    stored only as the plaintext of a message sealed to the operation key
    (`CustomerKeyOpeners`).
   */
  lemma CustomerKeyNotInClear(o: Oracle, c: Config, rnd: Randomness, wallet: Wallet, db: Db, p: Provisioned, field: string)
    requires Custody(o, c, rnd, wallet, db, p) && FreshRandomness(o, rnd)
    requires field in {p.db.cardanoKeys[|db.cardanoKeys|].skey, p.db.pgpKeys[|db.pgpKeys|].publicKey,
                       p.db.pgpKeys[|db.pgpKeys|].privateKey, p.db.pgpKeys[|db.pgpKeys|].revocationCertificate}
    ensures field != p.tiers.customer.privateKey
    ensures Utils.HexToString(field) != Some(rnd.customer.privateKey)
  {
    StoredFieldText(o, c, rnd, wallet, db, p, field);
    Utils.RoundTrip(rnd.customer.privateKey);
  }

  /**
    When the PIN and the salt are non-empty and end differently, as the
    scenario's do (`ScenarioSharesDiffer`), forgetting the salt, forgetting
    the PIN, or swapping the PIN and the salt each fail with `UnlockError`.
   */
  lemma ShareMistakesFail(o: Oracle, c: Config, rnd: Randomness, wallet: Wallet, db: Db, p: Provisioned)
    requires Custody(o, c, rnd, wallet, db, p)
    requires |c.userPin| > 0 && |c.userSalt| > 0 && c.userPin[|c.userPin| - 1] != c.userSalt[|c.userSalt| - 1]
    ensures DecryptData(p.oracle, rnd.walletMessage, p.tiers.customer.privateKey, c.userPin, c.vaultPassphrase) == Err(UnlockError)
    ensures DecryptData(p.oracle, rnd.walletMessage, p.tiers.customer.privateKey, "", c.vaultPassphrase, c.userSalt) == Err(UnlockError)
    ensures DecryptData(p.oracle, rnd.walletMessage, p.tiers.customer.privateKey, c.userSalt, c.vaultPassphrase, c.userPin) == Err(UnlockError)
  {
    var lock := c.CustomerLock();
    CustomerNeedsAllShares(o, c, rnd, wallet, db, p, c.userPin, c.vaultPassphrase, "");
    CustomerNeedsAllShares(o, c, rnd, wallet, db, p, "", c.vaultPassphrase, c.userSalt);
    var swapped := Passphrase(c.userSalt, c.vaultPassphrase, c.userPin);
    assert swapped[|swapped| - 1] == c.userPin[|c.userPin| - 1];
    assert lock[|lock| - 1] == c.userSalt[|c.userSalt| - 1];
    CustomerNeedsAllShares(o, c, rnd, wallet, db, p, c.userSalt, c.vaultPassphrase, c.userPin);
  }

  /** The scenario's PIN and salt are non-empty and end differently. */
  lemma ScenarioSharesDiffer()
    ensures var pin := Scenario.userPin; var salt := Scenario.userSalt;
      |pin| > 0 && |salt| > 0 && pin[|pin| - 1] != salt[|salt| - 1]
  {
    assert Scenario.userPin == UserPin && Scenario.userSalt == UserSalt;
  }
}
