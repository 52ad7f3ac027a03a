/** Whether a connection persists and whether it asks to change protocol, as a
    property of the header list (section 9.3 of RFC 9112). */
module Persistence {
  import opened Bytes
  import opened Framing
  import opened Text

  predicate Says(value: bytes, option: bytes)
    requires option != []
  {
    Contains(ToLower(value), option) || EqIgnoreCase(value, option)
  }

  predicate SaysClose(f: Field) {
    Says(f.value, CLOSE)
  }

  // A connection field that settles the question, one way or the other.
  predicate Settles(f: Field) {
    ToLower(f.name) == CONNECTION && (SaysClose(f) || Says(f.value, KEEP_ALIVE))
  }

  predicate AsksUpgrade(f: Field) {
    ToLower(f.name) == CONNECTION && Says(f.value, UPGRADE)
  }

  // The last field that settles the question decides; without one, `fallback`.
  ghost predicate LastDecides(settles: Field -> bool, closes: Field -> bool, fields: seq<Field>, fallback: bool,
                              keep: bool) {
    && ((forall i | 0 <= i < |fields| :: !settles(fields[i])) ==> keep == fallback)
    && (forall i | 0 <= i < |fields| && settles(fields[i]) && (forall j | i < j < |fields| :: !settles(fields[j])) ::
          keep == !closes(fields[i]))
  }

  ghost predicate SomeAsks(asks: Field -> bool, fields: seq<Field>) {
    exists i :: 0 <= i < |fields| && asks(fields[i])
  }

  // The last field that is settled, or -1.
  lemma {:induction false} LastOne(settles: Field -> bool, fields: seq<Field>) returns (i: int)
    ensures -1 <= i < |fields| && (i >= 0 ==> settles(fields[i]))
    ensures forall j | i < j < |fields| :: !settles(fields[j])
    decreases |fields|
  {
    if fields == [] {
      i := -1;
    } else if settles(fields[|fields| - 1]) {
      i := |fields| - 1;
    } else {
      i := LastOne(settles, fields[..|fields| - 1]);
    }
  }

  /** There is only one such verdict. */
  lemma OneVerdict(settles: Field -> bool, closes: Field -> bool, fields: seq<Field>, fallback: bool,
                   a: bool, b: bool)
    requires LastDecides(settles, closes, fields, fallback, a) && LastDecides(settles, closes, fields, fallback, b)
    ensures a == b
  {
    var i := LastOne(settles, fields);
  }

  lemma LastDecidesNext(settles: Field -> bool, closes: Field -> bool, fields: seq<Field>, fallback: bool,
                        keep: bool, f: Field)
    requires LastDecides(settles, closes, fields, fallback, keep)
    ensures LastDecides(settles, closes, fields + [f], fallback, if settles(f) then !closes(f) else keep)
  {
    var all := fields + [f];
    assert all[|fields|] == f && forall i | 0 <= i < |fields| :: all[i] == fields[i];
  }

  lemma SomeAsksNext(asks: Field -> bool, fields: seq<Field>, f: Field)
    ensures SomeAsks(asks, fields + [f]) <==> SomeAsks(asks, fields) || asks(f)
  {
    var all := fields + [f];
    assert all[|fields|] == f && forall i | 0 <= i < |fields| :: all[i] == fields[i];
  }

  // One field, on the two flags alone.
  lemma FieldVerdict(p: Platform, s: Scan, f: Field)
    ensures var r := ScanField(p, s, f);
            && r.keepAlive == (if Settles(f) then !SaysClose(f) else s.keepAlive)
            && r.isUpgrade == (s.isUpgrade || AsksUpgrade(f))
  {
    NamesApart();
    if ToLower(f.name) == CONNECTION {
      ConnectionVerdict(s, f);
    } else {
      OtherVerdict(p, s, f);
    }
  }

  lemma NamesApart()
    ensures CONNECTION != CONTENT_LENGTH && CONNECTION != TRANSFER_ENCODING && CONNECTION != UPGRADE && CONNECTION != []
  {
    assert |CONNECTION| == 10 && |CONTENT_LENGTH| == 14 && |TRANSFER_ENCODING| == 17 && |UPGRADE| == 7;
  }

  lemma ConnectionVerdict(s: Scan, f: Field)
    ensures var r := ScanConnection(s, f.value);
            && r.keepAlive == (if SaysClose(f) then false else if Says(f.value, KEEP_ALIVE) then true else s.keepAlive)
            && r.isUpgrade == (s.isUpgrade || Says(f.value, UPGRADE))
  {
  }

  lemma OtherVerdict(p: Platform, s: Scan, f: Field)
    requires ToLower(f.name) != CONNECTION
    ensures ScanField(p, s, f).keepAlive == s.keepAlive && ScanField(p, s, f).isUpgrade == s.isUpgrade
  {
  }

  ghost predicate Verdict(version: nat, s: Scan, fields: seq<Field>) {
    && LastDecides(Settles, SaysClose, fields, version == 1, s.keepAlive)
    && (s.isUpgrade <==> SomeAsks(AsksUpgrade, fields))
  }

  lemma VerdictNext(version: nat, s: Scan, r: Scan, fields: seq<Field>, f: Field)
    requires Verdict(version, s, fields)
    requires r.keepAlive == (if Settles(f) then !SaysClose(f) else s.keepAlive)
    requires r.isUpgrade == (s.isUpgrade || AsksUpgrade(f))
    ensures Verdict(version, r, fields + [f])
  {
    LastDecidesNext(Settles, SaysClose, fields, version == 1, s.keepAlive, f);
    SomeAsksNext(AsksUpgrade, fields, f);
  }

  /** The connection persists by the last field that says close or keep-alive, or by
      the version when none does; it asks for an upgrade when some field does. */
  lemma {:induction false} PersistenceVerdict(p: Platform, version: nat, fields: seq<Field>)
    ensures Verdict(version, ScanAll(p, version, fields), fields)
  {
    if fields != [] {
      var front, f := fields[..|fields| - 1], fields[|fields| - 1];
      var s := ScanAll(p, version, front);
      PersistenceVerdict(p, version, front);
      FieldVerdict(p, s, f);
      VerdictNext(version, s, ScanField(p, s, f), front, f);
      assert fields == front + [f];
    }
  }
}
