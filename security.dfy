/** The password-hashing collaborator (bcrypt), seen only through its results. */
module Security {
  import opened Wrappers

  /**
   * `Hash` may fail with an error text; `VerifyPassword(digest, plain)` gives
   * no error when the password matches the digest, and an error text otherwise.
   */
  datatype Bcrypt = Bcrypt(hash: string -> Result<string, string>, verify: (string, string) -> Option<string>) {

    /** `VerifyPassword` returns no error. */
    predicate Matches(digest: string, plain: string) {
      verify(digest, plain).None?
    }

    /** A digest bcrypt produced verifies against its own password. */
    ghost predicate RoundTrip() {
      forall p :: hash(p).Ok? ==> Matches(hash(p).value, p)
    }

    /** An empty digest is too short to be a bcrypt hash, so nothing verifies against it. */
    ghost predicate RejectsEmptyDigest() {
      forall p :: !Matches("", p)
    }
  }
}
