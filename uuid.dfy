/**
 * The fresh-id source (`uuidv4`). Ids are never computed here: each
 * operation that needs one takes it as a parameter, with the guarantee the
 * generator gives, the shape of a version-4 UUID of section 4.4 of RFC 4122
 * in its lower-case text form.
 */
module Uuid {

  predicate IsLowerHex(c: char) {
    '0' <= c <= '9' || 'a' <= c <= 'f'
  }

  /** `xxxxxxxx-xxxx-4xxx-yxxx-xxxxxxxxxxxx` with `y` one of 8, 9, a, b. */
  predicate IsUuidV4(id: string) {
    && |id| == 36
    && (forall i :: 0 <= i < 36 ==> (id[i] == '-' <==> i in {8, 13, 18, 23}))
    && (forall i :: 0 <= i < 36 && i !in {8, 13, 18, 23} ==> IsLowerHex(id[i]))
    && id[14] == '4'
    && id[19] in {'8', '9', 'a', 'b'}
  }
}
