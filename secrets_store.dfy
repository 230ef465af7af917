/** SecretsStore.java: password encryption for stored profiles. The cipher
    (jasypt's BasicTextEncryptor) is not part of this model: it is given as a
    pair of functions, and what is proved about a round trip assumes of it
    only that decryption undoes encryption under the same key. */
module SecretsStore {
  import opened Wrappers
  import opened ConnectionProfile

  /** encrypt(key, plain) and decrypt(key, cipherText), the latter None when
      the text does not decrypt under that key. */
  datatype Cipher = Cipher(
    encrypt: (string, string) -> string,
    decrypt: (string, string) -> Option<string>)

  /** What the round-trip properties assume of the cipher: a non-empty text
      encrypts to a non-empty text that decrypts back to it. */
  ghost predicate Inverts(cipher: Cipher) {
    forall key, plain :: plain != "" ==>
      cipher.encrypt(key, plain) != "" && cipher.decrypt(key, cipher.encrypt(key, plain)) == Some(plain)
  }

  const DefaultPassword: string := "casvizer-secret-key-change-me"

  const DecryptFailure: string :=
    "Failed to decrypt secret. Verify CASVIZER_MASTER_PASSWORD and stored data integrity."

  /** The master password: CASVIZER_MASTER_PASSWORD when it is set and
      non-empty, else the built-in default. */
  function Passphrase(env: Option<string>): (key: string)
    ensures key != ""
    ensures NonEmpty(env) ==> key == env.value
    ensures !NonEmpty(env) ==> key == DefaultPassword
  {
    if NonEmpty(env) then env.value else DefaultPassword
  }

  datatype SecretsStore = SecretsStore(cipher: Cipher, key: string)

  /** new SecretsStore(), given the environment variable's value. */
  function NewSecretsStore(env: Option<string>, cipher: Cipher): SecretsStore {
    SecretsStore(cipher, Passphrase(env))
  }

  /** encrypt: a null or empty text is returned as it is. */
  function Encrypt(s: SecretsStore, plain: Option<string>): Option<string> {
    if !NonEmpty(plain) then plain else Some(s.cipher.encrypt(s.key, plain.value))
  }

  /** decrypt: a null or empty text is returned as it is; a text that does not
      decrypt is an IllegalStateException. */
  function Decrypt(s: SecretsStore, cipherText: Option<string>): Result<Option<string>> {
    if !NonEmpty(cipherText) then Success(cipherText)
    else match s.cipher.decrypt(s.key, cipherText.value)
      case None => Failure(IllegalState(DecryptFailure))
      case Some(plain) => Success(Some(plain))
  }

  /** Decryption undoes encryption, for every text including null and empty,
      and encryption keeps a text non-empty exactly when it was. */
  lemma DecryptEncrypt(s: SecretsStore, plain: Option<string>)
    requires Inverts(s.cipher)
    ensures NonEmpty(Encrypt(s, plain)) == NonEmpty(plain)
    ensures Decrypt(s, Encrypt(s, plain)) == Success(plain)
  {
    if NonEmpty(plain) {
      assert s.cipher.decrypt(s.key, s.cipher.encrypt(s.key, plain.value)) == Some(plain.value);
    }
  }

  /** Whatever the cipher does, a null or empty text is returned by both
      encrypt and decrypt as it is. */
  lemma EmptyPassesThrough(s: SecretsStore, text: Option<string>)
    ensures !NonEmpty(text) ==> Encrypt(s, text) == text && Decrypt(s, text) == Success(text)
  {
  }

  /** The only failure is the one for a text that does not decrypt. */
  lemma DecryptFails(s: SecretsStore, cipherText: Option<string>)
    ensures Decrypt(s, cipherText).Failure? <==>
      NonEmpty(cipherText) && s.cipher.decrypt(s.key, cipherText.value).None?
    ensures Decrypt(s, cipherText).Failure? ==> Decrypt(s, cipherText).error == IllegalState(DecryptFailure)
  {
  }
}
