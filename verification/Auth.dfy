/** Which names the server lets log in. */
module Auth {
  predicate IsAlnum(c: char) {
    '0' <= c <= '9' || 'A' <= c <= 'Z' || 'a' <= c <= 'z'
  }

  /** auth_valid_username: 1 to 32 letters and digits. */
  predicate ValidUsername(name: string) {
    0 < |name| <= 32 && forall i :: 0 <= i < |name| ==> IsAlnum(name[i])
  }
}
