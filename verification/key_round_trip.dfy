/**
  The single-key scenario of __tests__/pgp.test.ts: one key pair locked
  under three shares, a message sealed to its public key alone, and the
  message opened again with its private key and the same shares.
 */
module KeyRoundTrip {
  import opened Results
  import opened Pgp

  /**
    Create a key pair, seal `input` to its public key alone, open the message
    with its private key and the same shares. Whatever comes back is the
    input; a failure is the library's randomness repeating itself.
   */
  function SealAndOpen(o: Oracle, armor: KeyArmor, ciphertext: string, input: string, name: string, email: string,
                       pin: string, vault: string, external: string): (r: Result<string>)
    ensures r.Ok? ==> r.value == input
    ensures r.Err? ==> r.error == GenerationError
  {
    var created :- CreateKeyPair(o, armor, name, email, pin, vault, external);
    var (o1, keyPair) := created;
    var sealed :- EncryptData(o1, input, [keyPair.publicKey], ciphertext);
    var (o2, encrypted) := sealed;
    DecryptData(o2, encrypted, keyPair.privateKey, pin, vault, external)
  }

  /** The test's final assertion: on fresh randomness the message opens to exactly what was sealed. */
  lemma SealAndOpenRoundTrip(o: Oracle, armor: KeyArmor, ciphertext: string, input: string, name: string, email: string,
                             pin: string, vault: string, external: string)
    requires FreshKeyArmor(o, armor) && !Emitted(o, ciphertext) && ciphertext !in armor.Texts()
    ensures SealAndOpen(o, armor, ciphertext, input, name, email, pin, vault, external) == Ok(input)
  {
    var (o1, keyPair) := CreateKeyPair(o, armor, name, email, pin, vault, external).value;
    CreateKeyPairHolds(o, armor, name, email, pin, vault, external);
    CreateKeyPairEmits(o, armor, name, email, pin, vault, external, ciphertext);
    assert ReadHexKey(o1, [keyPair.publicKey][0]) == Ok(o1.privateKeys[armor.privateKey].id);
    EncryptDecryptRoundTrip(o1, input, [keyPair.publicKey], ciphertext, armor.privateKey, 0, pin, vault, external);
  }

  /** The scenario fails only when the library's randomness repeats itself. */
  lemma SealAndOpenNeedsFresh(o: Oracle, armor: KeyArmor, ciphertext: string, input: string, name: string, email: string,
                              pin: string, vault: string, external: string)
    requires SealAndOpen(o, armor, ciphertext, input, name, email, pin, vault, external).Ok?
    ensures FreshKeyArmor(o, armor) && !Emitted(o, ciphertext) && ciphertext !in armor.Texts()
  {
    CreateKeyPairEmits(o, armor, name, email, pin, vault, external, ciphertext);
  }
}
