/** The text form of a UUID (section 4 of RFC 9562): 32 lower-case hexadecimal digits in five
    groups separated by dashes. */
module Uuids {

  const UUID_LENGTH := 36

  predicate IsHex(c: char) { '0' <= c <= '9' || 'a' <= c <= 'f' }

  predicate IsIdChar(c: char) { IsHex(c) || c == '-' }

  predicate IsDashPosition(i: int) { i == 8 || i == 13 || i == 18 || i == 23 }

  predicate IsUuid(s: string) {
    && |s| == UUID_LENGTH
    && forall i :: 0 <= i < UUID_LENGTH ==> if IsDashPosition(i) then s[i] == '-' else IsHex(s[i])
  }
}
