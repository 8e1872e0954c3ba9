/** The audit table: one hash chain per session, its verifier, and what verification proves. */
module Chain {
  import CanonicalJson
  import opened Json
  import opened Model

  /** Everything the hash of a row covers. */
  datatype Body = Body(sessionId: string, seqNo: int, ts: string, agentId: string, kind: string, payload: Json)

  /** A stored row: the hashed body, columns copied out for querying that no hash covers, and the links. */
  datatype Row = Row(id: nat, body: Body, copies: seq<Option<string>>, prevHash: string, hash: string)

  /** SHA-256 in hexadecimal, and the canonical JSON of a body; both abstract. */
  datatype Hashing = Hashing(sha: string -> string, canonical: Body -> string)

  function Zeros(n: nat): (s: string)
    ensures |s| == n
  {
    if n == 0 then "" else Zeros(n - 1) + "0"
  }

  const GENESIS := Zeros(64)

  function HashedText(h: Hashing, prev: string, body: Body): string {
    prev + h.canonical(body)
  }

  function EventHash(h: Hashing, prev: string, body: Body): string {
    h.sha(HashedText(h, prev, body))
  }

  // ---- Verification ---------------------------------------------------------------------------------

  function PrevOf(rows: seq<Row>, i: nat): string
    requires i <= |rows|
  {
    if i == 0 then GENESIS else rows[i - 1].hash
  }

  predicate LinkOk(h: Hashing, rows: seq<Row>, i: nat)
    requires i < |rows|
  {
    && rows[i].body.seqNo == i + 1
    && rows[i].prevHash == PrevOf(rows, i)
    && rows[i].hash == EventHash(h, PrevOf(rows, i), rows[i].body)
  }

  /** Consecutive numbers from one, every row hashed over its predecessor's hash. */
  predicate Verifies(h: Hashing, rows: seq<Row>) {
    forall i :: 0 <= i < |rows| ==> LinkOk(h, rows, i)
  }

  datatype Reason = MissingOrReordered | HashMismatch
  datatype Report = Valid(events: nat, head: string) | Broken(events: nat, at: int, reason: Reason)

  /** The first row that does not continue the chain. */
  predicate FirstBreak(h: Hashing, rows: seq<Row>, i: nat) {
    i < |rows| && !LinkOk(h, rows, i) && forall j :: 0 <= j < i ==> LinkOk(h, rows, j)
  }

  method VerifyRows(h: Hashing, rows: seq<Row>) returns (r: Report)
    ensures r.Valid? <==> Verifies(h, rows)
    ensures r.events == |rows|
    ensures r.Valid? ==> r.head == PrevOf(rows, |rows|)
    ensures r.Broken? ==> r.at > 0 && FirstBreak(h, rows, r.at - 1)
                          && (r.reason.MissingOrReordered? <==> rows[r.at - 1].body.seqNo != r.at)
  {
    var prev, expected := GENESIS, 1;
    for i := 0 to |rows|
      invariant expected == i + 1 && prev == PrevOf(rows, i)
      invariant forall j :: 0 <= j < i ==> LinkOk(h, rows, j)
    {
      var row := rows[i];
      if row.body.seqNo != expected {
        assert !LinkOk(h, rows, i);
        return Broken(|rows|, expected, MissingOrReordered);
      }
      if row.prevHash != prev || row.hash != EventHash(h, prev, row.body) {
        assert !LinkOk(h, rows, i);
        return Broken(|rows|, row.body.seqNo, HashMismatch);
      }
      prev, expected := row.hash, expected + 1;
    }
    r := Valid(|rows|, prev);
  }

  // ---- Tamper evidence ------------------------------------------------------------------------------

  predicate HexWidth(h: Hashing, rows: seq<Row>) {
    forall i :: 0 <= i < |rows| ==> |rows[i].hash| == 64
  }

  /** A pair of rows whose hashed texts differ although their hashes do not. */
  ghost predicate Collision(h: Hashing, a: seq<Row>, b: seq<Row>, i: nat, j: nat) {
    && i < |a| && j < |b|
    && HashedText(h, PrevOf(a, i), a[i].body) != HashedText(h, PrevOf(b, j), b[j].body)
    && h.sha(HashedText(h, PrevOf(a, i), a[i].body)) == h.sha(HashedText(h, PrevOf(b, j), b[j].body))
  }

  /** Canonical JSON tells the bodies of these rows apart. */
  ghost predicate Distinguishes(h: Hashing, a: seq<Row>, b: seq<Row>) {
    forall i, j :: 0 <= i < |a| && 0 <= j < |b| && h.canonical(a[i].body) == h.canonical(b[j].body) ==>
      a[i].body == b[j].body
  }

  ghost predicate Agree(a: seq<Row>, b: seq<Row>) {
    |a| == |b| &&
    forall i :: 0 <= i < |a| ==> a[i].body == b[i].body && a[i].prevHash == b[i].prevHash && a[i].hash == b[i].hash
  }

  lemma PrevWidth(h: Hashing, rows: seq<Row>, i: nat)
    requires HexWidth(h, rows) && i <= |rows|
    ensures |PrevOf(rows, i)| == 64
  {
  }

  /** Equal hashes without a collision: the two rows and their predecessors' hashes agree. */
  lemma EqualHashesAgree(h: Hashing, a: seq<Row>, b: seq<Row>, m: nat, n: nat)
    requires m < |a| && n < |b| && LinkOk(h, a, m) && LinkOk(h, b, n)
    requires HexWidth(h, a) && HexWidth(h, b) && Distinguishes(h, a, b)
    requires a[m].hash == b[n].hash && !Collision(h, a, b, m, n)
    ensures m == n && a[m].body == b[n].body && a[m].prevHash == b[n].prevHash
  {
    PrevWidth(h, a, m);
    PrevWidth(h, b, n);
    var s, t := HashedText(h, PrevOf(a, m), a[m].body), HashedText(h, PrevOf(b, n), b[n].body);
    assert s == t;
    assert PrevOf(a, m) == s[..64] == t[..64] == PrevOf(b, n);
    assert h.canonical(a[m].body) == s[64..] == t[64..] == h.canonical(b[n].body);
    assert a[m].body == b[n].body;
  }

  lemma {:induction false} AgreeBackTo(h: Hashing, a: seq<Row>, b: seq<Row>, m: nat, n: nat)
    requires m < |a| && n < |b| && Verifies(h, a) && Verifies(h, b)
    requires HexWidth(h, a) && HexWidth(h, b) && Distinguishes(h, a, b)
    requires a[m].hash == b[n].hash && forall i, j :: !Collision(h, a, b, i, j)
    ensures m == n
    ensures forall i :: 0 <= i <= m ==> a[i].body == b[i].body && a[i].prevHash == b[i].prevHash && a[i].hash == b[i].hash
  {
    assert LinkOk(h, a, m) && LinkOk(h, b, n);
    EqualHashesAgree(h, a, b, m, n);
    if m > 0 {
      AgreeBackTo(h, a, b, m - 1, n - 1);
    }
  }

  /**
   * Two non-empty row lists that verify with the same head hash agree on every hashed field,
   * or they exhibit a hash collision.
   */
  lemma TamperEvidence(h: Hashing, a: seq<Row>, b: seq<Row>)
    requires a != [] && b != [] && Verifies(h, a) && Verifies(h, b)
    requires HexWidth(h, a) && HexWidth(h, b) && Distinguishes(h, a, b)
    requires PrevOf(a, |a|) == PrevOf(b, |b|)
    ensures Agree(a, b) || exists i, j :: Collision(h, a, b, i, j)
  {
    if forall i, j :: !Collision(h, a, b, i, j) {
      AgreeBackTo(h, a, b, |a| - 1, |b| - 1);
    }
  }

  /** Rows kept from a log, in order. */
  ghost predicate Increasing(kept: seq<nat>, n: nat) {
    && (forall i :: 0 <= i < |kept| ==> kept[i] < n)
    && (forall i, j :: 0 <= i < j < |kept| ==> kept[i] < kept[j])
  }

  function Keep(rows: seq<Row>, kept: seq<nat>): seq<Row>
    requires forall i :: 0 <= i < |kept| ==> kept[i] < |rows|
  {
    seq(|kept|, i requires 0 <= i < |kept| => rows[kept[i]])
  }

  /** What survives a deletion verifies exactly when only a tail was deleted. */
  lemma OnlyTailDeletionUnseen(h: Hashing, rows: seq<Row>, kept: seq<nat>)
    requires Verifies(h, rows) && Increasing(kept, |rows|)
    ensures Verifies(h, Keep(rows, kept)) <==> |kept| <= |rows| && Keep(rows, kept) == rows[..|kept|]
  {
    var left := Keep(rows, kept);
    if Verifies(h, left) {
      forall i | 0 <= i < |kept|
        ensures kept[i] == i
      {
        assert LinkOk(h, left, i) && LinkOk(h, rows, kept[i]);
      }
      if |kept| > 0 {
        assert kept[|kept| - 1] < |rows|;
      }
    }
    if |kept| <= |rows| && left == rows[..|kept|] {
      forall i | 0 <= i < |left|
        ensures LinkOk(h, left, i)
      {
        assert LinkOk(h, rows, i);
      }
    }
  }

  /** Verification sees the hashed fields and nothing else: the query columns can change unnoticed. */
  lemma CopiesAreNotCovered(h: Hashing, a: seq<Row>, b: seq<Row>)
    requires Agree(a, b)
    ensures Verifies(h, a) <==> Verifies(h, b)
  {
    forall i | 0 <= i < |a|
      ensures LinkOk(h, a, i) <==> LinkOk(h, b, i)
    {
      assert PrevOf(a, i) == PrevOf(b, i);
    }
  }

  // ---- With the canonical JSON the harness writes ---------------------------------------------------

  function BodyJson(b: Body): Json {
    Obj(map["s" := Str(b.sessionId), "n" := Int(b.seqNo), "t" := Str(b.ts), "a" := Str(b.agentId), "k" := Str(b.kind),
            "p" := b.payload])
  }

  ghost function JsonHashing(sha: string -> string, fl: CanonicalJson.Floats): Hashing {
    Hashing(sha, (b: Body) => CanonicalJson.Canonical(fl, BodyJson(b)))
  }

  ghost predicate Recordable(fl: CanonicalJson.Floats, rows: seq<Row>) {
    forall i :: 0 <= i < |rows| ==> CanonicalJson.Printable(fl, rows[i].body.payload)
  }

  lemma BodyJsonInjective(a: Body, b: Body)
    requires BodyJson(a) == BodyJson(b)
    ensures a == b
  {
    var f, g := BodyJson(a).fields, BodyJson(b).fields;
    assert f["s"] == g["s"] && f["n"] == g["n"] && f["t"] == g["t"];
    assert f["a"] == g["a"] && f["k"] == g["k"] && f["p"] == g["p"];
  }

  lemma {:induction false} BodyIsPrintable(fl: CanonicalJson.Floats, b: Body)
    requires CanonicalJson.Printable(fl, b.payload)
    ensures CanonicalJson.Printable(fl, BodyJson(b))
  {
  }

  lemma {:induction false} BodiesAreTold(fl: CanonicalJson.Floats, a: Body, b: Body)
    requires CanonicalJson.Faithful(fl)
    requires CanonicalJson.Printable(fl, a.payload) && CanonicalJson.Printable(fl, b.payload)
    requires CanonicalJson.Canonical(fl, BodyJson(a)) == CanonicalJson.Canonical(fl, BodyJson(b))
    ensures a == b
  {
    BodyIsPrintable(fl, a);
    BodyIsPrintable(fl, b);
    CanonicalJson.CanonicalIsInjective(fl, BodyJson(a), BodyJson(b));
    BodyJsonInjective(a, b);
  }

  lemma HashesAreWide(h: Hashing, rows: seq<Row>)
    requires Verifies(h, rows) && forall text :: |h.sha(text)| == 64
    ensures HexWidth(h, rows)
  {
    forall i | 0 <= i < |rows|
      ensures |rows[i].hash| == 64
    {
      assert LinkOk(h, rows, i);
    }
  }

  /**
   * Hashing canonical JSON with a 64-digit hash: two non-empty verifying lists with the same head hash agree on every
   * hashed field, or two of their rows exhibit a collision of the hash itself.
   */
  lemma JsonTamperEvidence(sha: string -> string, fl: CanonicalJson.Floats, a: seq<Row>, b: seq<Row>)
    requires CanonicalJson.Faithful(fl) && Recordable(fl, a) && Recordable(fl, b)
    requires forall text :: |sha(text)| == 64
    requires var h := JsonHashing(sha, fl);
             a != [] && b != [] && Verifies(h, a) && Verifies(h, b) && PrevOf(a, |a|) == PrevOf(b, |b|)
    ensures Agree(a, b) || exists i, j :: Collision(JsonHashing(sha, fl), a, b, i, j)
  {
    var h := JsonHashing(sha, fl);
    forall i, j | 0 <= i < |a| && 0 <= j < |b| && h.canonical(a[i].body) == h.canonical(b[j].body)
      ensures a[i].body == b[j].body
    {
      BodiesAreTold(fl, a[i].body, b[j].body);
    }
    HashesAreWide(h, a);
    HashesAreWide(h, b);
    TamperEvidence(h, a, b);
  }
}
