/**
The key record of one account or of the vault (backend/helpers.py), over ideal
cryptography: every primitive is a datatype constructor, so digests are
injective and a sealed value opens only under the key it was sealed with.
*/
module KeyMaterials {

  type Salt = nat
  type RawKey = nat

  datatype Derived = Argon2id(password: string, salt: Salt)

  datatype Digest =
    | Commitment(derived: Derived)
    | KeyCheck(key: RawKey)

  /** AES-GCM under the key-wrapping key of `under`, bound to the salt. */
  datatype Sealed = Sealed(under: Derived, plaintext: RawKey, boundTo: Salt)

  datatype KeyMaterial = KeyMaterial(salt: Salt, passwordCheck: Digest, wrappedKey: Sealed, keyCheck: Digest)

  datatype Unlocked = Opened(key: RawKey) | WrongPassword | DecryptionFailed

  function SealKeyMaterial(password: string, key: RawKey, salt: Salt): KeyMaterial {
    var derived := Argon2id(password, salt);
    KeyMaterial(salt, Commitment(derived), Sealed(derived, key, salt), KeyCheck(key))
  }

  /** The commitment is compared first; a matching one with a wrapped key or a
      key check that does not verify is damage, not a wrong password. */
  function UnlockKeyMaterial(password: string, material: KeyMaterial): Unlocked {
    var derived := Argon2id(password, material.salt);
    if material.passwordCheck != Commitment(derived) then WrongPassword
    else if material.wrappedKey.under != derived || material.wrappedKey.boundTo != material.salt then DecryptionFailed
    else if material.keyCheck != KeyCheck(material.wrappedKey.plaintext) then DecryptionFailed
    else Opened(material.wrappedKey.plaintext)
  }

  function KeyOf(material: KeyMaterial): RawKey {
    material.wrappedKey.plaintext
  }

  /** Some password opens it. */
  ghost predicate WellSealed(material: KeyMaterial) {
    exists password :: UnlockKeyMaterial(password, material) == Opened(KeyOf(material))
  }

  /** A record opens under the password it was sealed with, and under no other. */
  lemma UnlockExactly(password: string, attempt: string, key: RawKey, salt: Salt)
    ensures UnlockKeyMaterial(attempt, SealKeyMaterial(password, key, salt))
         == if attempt == password then Opened(key) else WrongPassword
  {
  }

  /** A record that opens is the record sealing produces, so the password, the
      vault key and the salt determine it and are determined by it. */
  lemma OpensOnlyIfSealed(password: string, material: KeyMaterial)
    ensures UnlockKeyMaterial(password, material).Opened?
        <==> material == SealKeyMaterial(password, KeyOf(material), material.salt)
  {
  }
}
