/** Signed page cursors (src/app/core/cursors.py). */
module Cursors {
  import opened Wrappers
  import opened Ids

  datatype Digest = Digest(hex: string)

  /** What a cursor carries. A payload that was not minted here may hold any integers. */
  datatype Payload = Payload(offset: int, digest: Digest, search: Id, limit: int)

  /** URL-safe base64 with its decoding errors, JSON with its own, and the keyed hash. */
  datatype Codec = Codec(
    wrap: string -> string, unwrap: string -> Option<string>,
    dumps: Payload -> string, loads: string -> Option<Payload>,
    sign: string -> string)

  ghost predicate Lawful(c: Codec) {
    && (forall s {:trigger c.wrap(s)} :: c.unwrap(c.wrap(s)) == Some(s))
    && (forall p {:trigger c.dumps(p)} :: c.loads(c.dumps(p)) == Some(p))
    && (forall s {:trigger c.sign(s)} :: '.' !in c.sign(s))   // lower-case hexadecimal
  }

  datatype CursorState = CursorState(offset: nat, search: Id)

  function Encode(c: Codec, p: Payload): string {
    c.wrap(c.dumps(p) + "." + c.sign(c.dumps(p)))
  }

  /** `rsplit(".", 1)`; without a dot the unpacking fails. */
  function RSplit(s: string): Option<(string, string)> {
    if s == "" then None
    else if s[|s| - 1] == '.' then Some((s[..|s| - 1], ""))
    else
      match RSplit(s[..|s| - 1])
      case None => None
      case Some((left, right)) => Some((left, right + [s[|s| - 1]]))
  }

  function Decode(c: Codec, cursor: string, digest: Digest, limit: int): Result<CursorState> {
    match c.unwrap(cursor)
    case None => Err("Invalid or expired search cursor")
    case Some(token) =>
      match RSplit(token)
      case None => Err("Invalid or expired search cursor")
      case Some((payload, signature)) =>
        if signature != c.sign(payload) then Err("Invalid or expired search cursor")
        else
          match c.loads(payload)
          case None => Err("Invalid or expired search cursor")
          case Some(p) =>
            if p.digest != digest || p.limit != limit || p.offset < 0 then Err("Invalid or expired search cursor")
            else Ok(CursorState(p.offset, p.search))
  }

  lemma {:induction false} RSplitAtLastDot(left: string, right: string)
    requires '.' !in right
    ensures RSplit(left + "." + right) == Some((left, right))
  {
    var s := left + "." + right;
    if right == "" {
      assert s[..|s| - 1] == left;
    } else {
      var n := |right| - 1;
      assert s[..|s| - 1] == left + "." + right[..n];
      RSplitAtLastDot(left, right[..n]);
      assert right[..n] + [right[n]] == right;
    }
  }

  lemma {:induction false} RSplitParts(s: string)
    requires RSplit(s).Some?
    ensures s == RSplit(s).value.0 + "." + RSplit(s).value.1
  {
    var n := |s| - 1;
    if s[n] != '.' {
      RSplitParts(s[..n]);
    }
    assert s == s[..n] + [s[n]];
  }

  /** A minted cursor is accepted exactly for the filters and the limit it was minted with, and then gives
      back its place; otherwise it is refused like any invalid one. */
  lemma DecodeOfEncodeIff(c: Codec, p: Payload, digest: Digest, limit: int)
    requires Lawful(c) && p.offset >= 0
    ensures Decode(c, Encode(c, p), digest, limit) ==
            if p.digest == digest && p.limit == limit then Ok(CursorState(p.offset, p.search))
            else Err("Invalid or expired search cursor")
  {
    var payload := c.dumps(p);
    RSplitAtLastDot(payload, c.sign(payload));
  }

  /** The signature is unforgeable: a correctly signed text was signed here. */
  ghost predicate Authentic(c: Codec, cursor: string, minted: set<Payload>) {
    forall text :: c.unwrap(cursor) == Some(text + "." + c.sign(text)) ==>
      exists p :: p in minted && c.dumps(p) == text
  }

  /** So whatever is accepted is the unchanged content of a minted cursor. */
  lemma AcceptedWasMinted(c: Codec, cursor: string, digest: Digest, limit: int, minted: set<Payload>)
    requires Lawful(c) && Authentic(c, cursor, minted) && Decode(c, cursor, digest, limit).Ok?
    ensures var st := Decode(c, cursor, digest, limit).value;
            Payload(st.offset, digest, st.search, limit) in minted
  {
    var token := c.unwrap(cursor).value;
    RSplitParts(token);
    var text := RSplit(token).value.0;
    assert c.unwrap(cursor) == Some(text + "." + c.sign(text));
    var p :| p in minted && c.dumps(p) == text;
    assert c.loads(c.dumps(p)) == Some(p);
  }
}
