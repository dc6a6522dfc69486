/**
 * MongoDB document ids as the handlers see them: strings checked with
 * `mongoose.Types.ObjectId.isValid` before any lookup by id.
 */
module ObjectIds {
  type ObjectId = string

  predicate IsHexDigit(c: char) {
    ('0' <= c <= '9') || ('a' <= c <= 'f') || ('A' <= c <= 'F')
  }

  /**
   * `ObjectId.isValid` on a string: twelve characters (read as raw bytes) or
   * twenty-four hexadecimal digits.
   */
  predicate IsValid(s: string) {
    |s| == 12 || (|s| == 24 && forall i :: 0 <= i < |s| ==> IsHexDigit(s[i]))
  }
}
