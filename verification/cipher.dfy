/** The cryptographic collaborators of the vault, kept abstract: the password
    cipher (CryptoJS AES in the original) and ethers' private-key-to-address
    derivation. They are values of function type, so that every property the
    model proves holds for any cipher and any derivation that satisfy the
    assumptions stated below. */
module Cipher {
  import opened Wrappers

  datatype Crypto = Crypto(
    /** `CryptoUtils.encrypt(text, password)`. */
    encrypt: (string, string) -> string,
    /** `CryptoUtils.decrypt(ciphertext, password)`; it may throw (for example on
        malformed UTF-8), which is the `Failure` case with the error's message. */
    decrypt: (string, string) -> Result<string, string>,
    /** `new ethers.Wallet(privateKey).address`; `None` when the key does not parse. */
    deriveAddress: string -> Option<string>)

  /** The one assumption about the cipher: decrypting with the password that
      encrypted a text gives that text back. */
  ghost predicate Inverts(c: Crypto) {
    forall text, password :: c.decrypt(c.encrypt(text, password), password) == Success(text)
  }

  /** A key pair as the generator produces it: its address is the address
      derived from its private key. */
  predicate Derived(c: Crypto, privateKey: string, address: string) {
    c.deriveAddress(privateKey) == Some(address)
  }
}
