/** The CORS configuration of index.js: the allow-list parsed from the
    `CORS_ORIGINS` environment string and the `origin` callback. */
module Cors {
  import opened Wrappers
  import opened Text

  /** `.map(s => s.trim()).filter(Boolean)`: trimmed pieces, empty ones dropped, order kept. */
  function TrimmedNonEmpty(parts: seq<string>): (r: seq<string>)
    ensures |r| <= |parts|
    ensures forall k :: 0 <= k < |r| ==> r[k] != [] && IsTrimmed(r[k])
  {
    if parts == [] then []
    else
      var head := Trim(parts[0]);
      if head == [] then TrimmedNonEmpty(parts[1..]) else [head] + TrimmedNonEmpty(parts[1..])
  }

  /** `x` is the trim of one of the pieces. */
  predicate TrimOfSome(parts: seq<string>, x: string) {
    exists k :: 0 <= k < |parts| && Trim(parts[k]) == x
  }

  /** An origin is on the list exactly when it is the non-empty trim of some piece. */
  lemma {:induction false} TrimmedNonEmptyMembers(parts: seq<string>, x: string)
    ensures x in TrimmedNonEmpty(parts) <==> x != [] && TrimOfSome(parts, x)
  {
    if parts != [] {
      var rest := parts[1..];
      TrimmedNonEmptyMembers(rest, x);
      var head := Trim(parts[0]);
      assert TrimmedNonEmpty(parts) == if head == [] then TrimmedNonEmpty(rest) else [head] + TrimmedNonEmpty(rest);
      if x in TrimmedNonEmpty(parts) {
        if x in TrimmedNonEmpty(rest) {
          var k :| 0 <= k < |rest| && Trim(rest[k]) == x;
          assert Trim(parts[k + 1]) == x;
        } else {
          assert Trim(parts[0]) == x;
        }
        assert TrimOfSome(parts, x);
      }
      if x != [] && TrimOfSome(parts, x) {
        var k :| 0 <= k < |parts| && Trim(parts[k]) == x;
        if k > 0 {
          assert Trim(rest[k - 1]) == x;
          assert TrimOfSome(rest, x);
        }
      }
    }
  }

  /** A separator absent from every piece stays absent from the list. */
  lemma {:induction false} TrimmedNonEmptyAbsent(parts: seq<string>, c: char)
    requires forall k :: 0 <= k < |parts| ==> c !in parts[k]
    ensures forall k :: 0 <= k < |TrimmedNonEmpty(parts)| ==> c !in TrimmedNonEmpty(parts)[k]
  {
    if parts != [] {
      TrimKeepsAbsent(parts[0], c);
      TrimmedNonEmptyAbsent(parts[1..], c);
    }
  }

  /** `allowedOrigins`: `(process.env.CORS_ORIGINS || "").split(",")`, each
      piece trimmed, empty pieces dropped. */
  function AllowedOrigins(env: Option<string>): (r: seq<string>)
    ensures forall k :: 0 <= k < |r| ==> r[k] != [] && IsTrimmed(r[k]) && ',' !in r[k]
    ensures env.None? || env.value == [] ==> r == []
  {
    var raw := match env case None => "" case Some(s) => s;
    TrimmedNonEmptyAbsent(Split(raw, ','), ',');
    TrimmedNonEmpty(Split(raw, ','))
  }

  /** Membership in the allow-list: exactly the non-empty trimmed comma-separated pieces. */
  lemma {:induction false} AllowedOriginsMembers(env: string, x: string)
    ensures x in AllowedOrigins(Some(env)) <==> x != [] && TrimOfSome(Split(env, ','), x)
  {
    assert AllowedOrigins(Some(env)) == TrimmedNonEmpty(Split(env, ','));
    TrimmedNonEmptyMembers(Split(env, ','), x);
  }

  /** The parse inverts `join(',')` on a list of trimmed, non-empty, comma-free origins. */
  lemma {:induction false} AllowedOriginsOfJoin(origins: seq<string>)
    requires |origins| >= 1
    requires forall k :: 0 <= k < |origins| ==> origins[k] != [] && IsTrimmed(origins[k]) && ',' !in origins[k]
    ensures AllowedOrigins(Some(Join(origins, ','))) == origins
  {
    SplitJoin(origins, ',');
    CleanPartsKept(origins);
  }

  lemma {:induction false} CleanPartsKept(parts: seq<string>)
    requires forall k :: 0 <= k < |parts| ==> parts[k] != [] && IsTrimmed(parts[k])
    ensures TrimmedNonEmpty(parts) == parts
  {
    if parts != [] {
      TrimNoEdges(parts[0]);
      CleanPartsKept(parts[1..]);
    }
  }

  datatype Decision = Allow | Block

  /** The `origin` callback: no origin (or an empty one) is allowed,
      an origin equal to an entry of the list is allowed, any other is
      blocked. */
  function OriginDecision(origin: Option<string>, allowed: seq<string>): (d: Decision)
    ensures d == Allow <==> origin.None? || origin.value == [] || origin.value in allowed
  {
    match origin
    case None => Allow
    case Some(o) => if o == [] || o in allowed then Allow else Block
  }
}
