/** Stored site credentials; hashing itself is not part of this model. */
module Passwords {
  /** An encoded hash and the hexadecimal form of its random salt, which names its generation. */
  datatype Password = Password(encodedHash: string, saltId: string)
}
