/** Mongo object ids. `mongoose.Types.ObjectId.isValid` is modelled as "24
    hexadecimal digits"; a valid id string is cast to its canonical
    lower-case form before it is compared with a stored `_id`. */
module ObjectIds {
  import opened Text

  predicate IsHexDigit(c: char) {
    '0' <= c <= '9' || 'a' <= c <= 'f' || 'A' <= c <= 'F'
  }

  /** `ObjectId.isValid(s)` for a string argument. */
  predicate IsObjectId(s: string) {
    |s| == 24 && forall i :: 0 <= i < |s| ==> IsHexDigit(s[i])
  }

  /** The `0x` or `0h` prefix, in either case, that `isHexadecimal` allows. */
  predicate HexPrefix(s: string) {
    |s| >= 2 && s[0] == '0' && s[1] in "xXhH"
  }

  /** The route validator `isMongoId`: 24 characters that `isHexadecimal`
      accepts, which allows a leading `0x` or `0h` before the digits. */
  predicate IsMongoId(s: string) {
    && |s| == 24
    && ((forall i :: 0 <= i < |s| ==> IsHexDigit(s[i]))
        || (HexPrefix(s) && forall i :: 2 <= i < |s| ==> IsHexDigit(s[i])))
  }

  /** Every valid object id passes `isMongoId`; a string that passes it but
      is no valid object id carries the prefix, and every prefixed string of
      22 further hex digits is such a string. */
  lemma {:induction false} MongoIdVersusObjectId(s: string)
    ensures IsObjectId(s) ==> IsMongoId(s)
    ensures IsMongoId(s) && !IsObjectId(s) <==>
              |s| == 24 && HexPrefix(s) && forall i :: 2 <= i < |s| ==> IsHexDigit(s[i])
  {
    if |s| == 24 && HexPrefix(s) {
      assert !IsHexDigit(s[1]);
    }
  }

  /** The form in which the store holds `_id` values: lower-case hex. */
  predicate IsCanonical(s: string) {
    IsObjectId(s) && forall i :: 0 <= i < |s| ==> !('A' <= s[i] <= 'Z')
  }

  type Id = s: string | IsCanonical(s) witness seq(24, _ => '0')

  /** Casting a valid id string to an `ObjectId`: the same hex digits, in lower case. */
  function Cast(s: string): (id: Id)
    requires IsObjectId(s)
    ensures EqualsIgnoreCase(id, s)
  {
    var r := Lower(s);
    assert forall i :: 0 <= i < |r| ==> IsHexDigit(r[i]) && !('A' <= r[i] <= 'Z');
    r
  }

  /** A stored id is valid and casts to itself, so looking it up by its own
      string finds it. */
  lemma {:induction false} CastCanonical(id: Id)
    ensures IsObjectId(id) && Cast(id) == id
  {
    assert forall i :: 0 <= i < |id| ==> Lower(id)[i] == id[i];
  }

  /** Two valid id strings denote the same object id exactly when they agree up to case. */
  lemma CastInjective(s: string, t: string)
    requires IsObjectId(s) && IsObjectId(t)
    ensures Cast(s) == Cast(t) <==> EqualsIgnoreCase(s, t)
  {
  }
}
