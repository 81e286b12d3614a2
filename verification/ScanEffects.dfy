// What the memory scan does, row by row: the order of the keys, which tokens a
// cursor accepts, and what one page examines, answers and marks.
module ScanEffects {
  import opened MemoryScan
  import opened Picking
  import opened ScanCursor
  import opened Wrappers

  // ---------------------------------------------------------------- key order

  /** The strings agree up to position `k`, where `s` ends or has the smaller character. */
  predicate FirstDiffers(s: string, t: string, k: nat) {
    k <= |s| && k < |t| && s[..k] == t[..k] && (k == |s| || s[k] < t[k])
  }

  /** Strings come in the order of their first differing characters, and a prefix comes first. */
  lemma {:induction false} StringBeforeIff(s: string, t: string)
    ensures StringBefore(s, t) <==> exists k: nat :: FirstDiffers(s, t, k)
    decreases |s|
  {
    if StringBefore(s, t) {
      if s == [] || s[0] < t[0] {
        assert FirstDiffers(s, t, 0);
      } else {
        StringBeforeIff(s[1..], t[1..]);
        var k: nat :| FirstDiffers(s[1..], t[1..], k);
        assert s[..k + 1] == [s[0]] + s[1..][..k] && t[..k + 1] == [t[0]] + t[1..][..k];
        assert FirstDiffers(s, t, k + 1);
      }
    } else if k: nat :| FirstDiffers(s, t, k) {
      if k > 0 {
        assert s[0] == s[..k][0] == t[..k][0] == t[0];
        assert s[1..][..k - 1] == s[..k][1..] && t[1..][..k - 1] == t[..k][1..];
        assert FirstDiffers(s[1..], t[1..], k - 1);
        StringBeforeIff(s[1..], t[1..]);
      }
      assert false;
    }
  }

  /** Keys come by time, and by id at the same time. */
  lemma BeforeIff(a: Key, b: Key)
    ensures Before(a, b) <==> a.at < b.at || (a.at == b.at && exists k: nat :: FirstDiffers(a.id, b.id, k))
  {
    StringBeforeIff(a.id, b.id);
    hide StringBefore;
  }

  // ---------------------------------------------------------------- tokens

  /** The token is not empty or too long, and holds a JSON object with the seven fields of a cursor and a MAC of 64 hexadecimal digits. */
  ghost predicate Wraps(lib: Library, token: string, fields: map<string, Json>) {
    && 0 < |token| <= 4096
    && Decode64(Padded(token)).Some? && lib.loads(Decode64(Padded(token)).value) == Some(Object(fields))
    && fields.Keys == {"v", "snapshot_at", "upper", "after", "total", "digest", "mac"}
    && fields["mac"].Text? && |fields["mac"].text| == 64
    && forall c :: c in fields["mac"].text ==> '0' <= c <= '9' || 'a' <= c <= 'f' || 'A' <= c <= 'F'
  }

  /** The MAC is that of the other six fields together with the scope of the request. */
  ghost predicate Authentic(lib: Library, fields: map<string, Json>, scope: Scope)
    requires "mac" in fields
  {
    fields["mac"] == Text(lib.hmac(lib.dumps(Object(map["cursor" := Object(fields - {"mac"}), "scope" := ScopePayload(scope)]))))
  }

  ghost predicate Reads(lib: Library, v: Json, at: int) { v.Text? && lib.fromIso(ReplaceZ(v.text)) == Some(at) }

  ghost predicate ReadsKey(lib: Library, v: Json, key: Key) {
    v.List? && |v.items| == 2 && Reads(lib, v.items[0], key.at) && key.id != "" && v.items[1] == Text(key.id)
  }

  /** The fields of version 1 that say `state`. */
  ghost predicate Says(lib: Library, fields: map<string, Json>, state: State)
    requires fields.Keys == {"v", "snapshot_at", "upper", "after", "total", "digest", "mac"}
  {
    && fields["v"] == Number(1) && fields["total"] == Number(state.total) && fields["digest"].Text?
    && Reads(lib, fields["snapshot_at"], state.snapshotAt)
    && ReadsKey(lib, fields["upper"], state.upper) && ReadsKey(lib, fields["after"], state.after)
  }

  lemma KeyIff(lib: Library, v: Json, key: Key)
    ensures ParseKey(lib, v) == Some(key) <==> ReadsKey(lib, v, key)
  {
  }

  lemma StateIff(lib: Library, fields: map<string, Json>, state: State)
    requires fields.Keys == {"v", "snapshot_at", "upper", "after", "total", "digest", "mac"}
    ensures ParseState(lib, fields - {"mac"}) == Ok(state) <==> Says(lib, fields, state)
  {
    KeyIff(lib, fields["upper"], state.upper);
    KeyIff(lib, fields["after"], state.after);
    hide ReadsKey, ParseKey;
  }

  lemma Unwrapped(lib: Library, token: string, scope: Scope, fields: map<string, Json>)
    requires Wraps(lib, token, fields)
    ensures DecodeCursor(lib, token, scope) ==
      if Authentic(lib, fields, scope) then ParseState(lib, fields - {"mac"})
      else if fields["digest"] != Text(lib.digest(lib.dumps(ScopePayload(scope)))) then ScopeMismatch
      else Invalid
  {
    hide Decode64, Padded, ParseState, ScopePayload;
  }

  lemma NotWrapped(lib: Library, token: string, scope: Scope)
    ensures DecodeCursor(lib, token, scope) != Invalid ==> exists fields :: Wraps(lib, token, fields)
  {
    hide Decode64, Padded, ParseState, ScopePayload, Mac, ScopeDigest;
    if !DecodeCursor(lib, token, scope).Invalid? {
      var fields := lib.loads(Decode64(Padded(token)).value).value.fields;
      assert Wraps(lib, token, fields);
    }
  }

  /** A token is read as `state` exactly if it is authentic for the scope and says so. */
  lemma AcceptedIff(lib: Library, token: string, scope: Scope, state: State)
    ensures DecodeCursor(lib, token, scope) == Ok(state) <==>
      exists fields :: Wraps(lib, token, fields) && Authentic(lib, fields, scope) && Says(lib, fields, state)
  {
    hide Authentic, Says, DecodeCursor;
    if fields :| Wraps(lib, token, fields) {
      Unwrapped(lib, token, scope, fields);
      StateIff(lib, fields, state);
      assert forall other :: Wraps(lib, token, other) ==> other == fields;
      hide Wraps, ParseState;
    } else {
      NotWrapped(lib, token, scope);
    }
  }

  /** A token is one of another scope exactly if its MAC is wrong and so is its digest. */
  lemma MismatchIff(lib: Library, token: string, scope: Scope)
    ensures DecodeCursor(lib, token, scope) == ScopeMismatch <==>
      exists fields :: Wraps(lib, token, fields) && !Authentic(lib, fields, scope)
        && fields["digest"] != Text(lib.digest(lib.dumps(ScopePayload(scope))))
  {
    hide Authentic, DecodeCursor;
    if fields :| Wraps(lib, token, fields) {
      Unwrapped(lib, token, scope, fields);
      NeverMismatch(lib, fields);
      assert forall other :: Wraps(lib, token, other) ==> other == fields;
      hide Wraps, ParseState;
    } else {
      NotWrapped(lib, token, scope);
    }
  }

  lemma NeverMismatch(lib: Library, fields: map<string, Json>)
    requires fields.Keys == {"v", "snapshot_at", "upper", "after", "total", "digest", "mac"}
    ensures !ParseState(lib, fields - {"mac"}).ScopeMismatch?
  {
    hide ParseKey, ParseTime;
  }

  /** If the token carries a MAC that is right for the scope, that MAC was made for a position that was handed out. */
  ghost predicate Unforged(lib: Library, token: string, scope: Scope, issued: set<State>) {
    forall fields :: Wraps(lib, token, fields) && Authentic(lib, fields, scope) ==>
      exists state :: state in issued && fields - {"mac"} == Payload(lib, state, scope)
  }

  /** Unless its MAC was forged, a token is accepted only as a position that was handed out for the scope. */
  lemma OnlyIssued(lib: Library, token: string, scope: Scope, issued: set<State>)
    requires Lawful(lib) && Unforged(lib, token, scope, issued)
    ensures DecodeCursor(lib, token, scope).Ok? ==> DecodeCursor(lib, token, scope).state in issued
  {
    hide DecodeCursor, Authentic, Lawful, Payload;
    if DecodeCursor(lib, token, scope).Ok? {
      var state := DecodeCursor(lib, token, scope).state;
      AcceptedIff(lib, token, scope, state);
      var fields :| Wraps(lib, token, fields) && Authentic(lib, fields, scope) && Says(lib, fields, state);
      var sent :| sent in issued && fields - {"mac"} == Payload(lib, sent, scope);
      SaysOne(lib, fields, scope, state, sent);
    }
  }

  lemma SaysOne(lib: Library, fields: map<string, Json>, scope: Scope, state: State, sent: State)
    requires Lawful(lib) && fields.Keys == {"v", "snapshot_at", "upper", "after", "total", "digest", "mac"}
    requires Says(lib, fields, state) && fields - {"mac"} == Payload(lib, sent, scope)
    ensures state == sent
  {
    var payload := fields - {"mac"};
    assert payload["snapshot_at"] == fields["snapshot_at"] && payload["upper"] == fields["upper"]
        && payload["after"] == fields["after"] && payload["total"] == fields["total"];
    TimeRoundTrip(lib, sent.snapshotAt);
    TimeRoundTrip(lib, sent.upper.at);
    TimeRoundTrip(lib, sent.after.at);
    hide Lawful;
  }

  /** A time that ends in "Z" is read as one that ends in "+00:00". */
  lemma {:induction false} ZuluIs(s: string)
    requires 'Z' !in s
    ensures ReplaceZ(s + "Z") == s + "+00:00"
  {
    if s == [] {
      assert s + "Z" == ['Z'];
      assert ReplaceZ(['Z']) == "+00:00" + ReplaceZ([]);
    } else {
      assert s[0] != 'Z' && (s + "Z")[1..] == s[1..] + "Z";
      ZuluIs(s[1..]);
    }
  }

  // ---------------------------------------------------------------- one page

  lemma {:induction false} SelectLeaves(rows: seq<Row>, upper: Key, after: Option<Key>, keep: Row -> bool) returns (at: seq<nat>)
    requires forall row :: keep(row) <==> InRange(row.key, upper, after)
    ensures Leaves(Select(rows, upper, after), rows, keep, at)
  {
    hide Leaves, InRange;
    if rows == [] {
      LeavesNothing(keep);
      at := [];
    } else {
      var before := SelectLeaves(rows[1..], upper, after, keep);
      at := (if keep(rows[0]) then [0] else []) + Shifted(before);
      LeavesMore(Select(rows[1..], upper, after), rows, keep, before);
    }
  }

  lemma {:induction false} MatchingLeaves(rows: seq<Row>, kind: Option<string>, keep: Row -> bool) returns (at: seq<nat>)
    requires forall row :: keep(row) <==> Fits(row, kind)
    ensures Leaves(Matching(rows, kind), rows, keep, at)
  {
    hide Leaves, Fits;
    if rows == [] {
      LeavesNothing(keep);
      at := [];
    } else {
      var before := MatchingLeaves(rows[1..], kind, keep);
      at := (if keep(rows[0]) then [0] else []) + Shifted(before);
      LeavesMore(Matching(rows[1..], kind), rows, keep, before);
    }
  }

  lemma {:induction false} UnconfirmedLeaves(rows: seq<Row>, get: Row -> Option<Record>, keep: Row -> bool) returns (at: seq<nat>)
    requires forall row :: keep(row) <==> get(row).None?
    ensures Leaves(Unconfirmed(rows, get), rows, keep, at)
  {
    hide Leaves;
    if rows == [] {
      LeavesNothing(keep);
      at := [];
    } else {
      var before := UnconfirmedLeaves(rows[1..], get, keep);
      at := (if keep(rows[0]) then [0] else []) + Shifted(before);
      LeavesMore(Unconfirmed(rows[1..], get), rows, keep, before);
    }
  }

  lemma {:induction false} WithoutLeaves(rows: seq<Row>, gone: seq<Row>, keep: Row -> bool) returns (at: seq<nat>)
    requires forall row :: keep(row) <==> row !in gone
    ensures Leaves(Without(rows, gone), rows, keep, at)
  {
    hide Leaves;
    if rows == [] {
      LeavesNothing(keep);
      at := [];
    } else {
      var before := WithoutLeaves(rows[1..], gone, keep);
      at := (if keep(rows[0]) then [0] else []) + Shifted(before);
      LeavesMore(Without(rows[1..], gone), rows, keep, before);
    }
  }

  /** The records of a page: what upstream answered about the rows it confirms, in their order. */
  ghost predicate Answered(records: seq<Record>, rows: seq<Row>, get: Row -> Option<Record>, at: seq<nat>) {
    && Picks(at, rows, (row: Row) => get(row).Some?)
    && Makes(records, rows, at, (row: Row, record: Record) => get(row) == Some(record))
  }

  lemma ConfirmedAnswers(rows: seq<Row>, get: Row -> Option<Record>) returns (at: seq<nat>)
    ensures Answered(Confirmed(rows, get), rows, get, at)
  {
    at := ConfirmedPicks(rows, get, (row: Row) => get(row).Some?, (row: Row, record: Record) => get(row) == Some(record));
    hide Confirmed, Picks, Makes;
  }

  lemma {:induction false} ConfirmedPicks(rows: seq<Row>, get: Row -> Option<Record>, keep: Row -> bool, of: (Row, Record) -> bool) returns (at: seq<nat>)
    requires (forall row :: keep(row) <==> get(row).Some?) && forall row, record :: of(row, record) <==> get(row) == Some(record)
    ensures Picks(at, rows, keep) && Makes(Confirmed(rows, get), rows, at, of)
  {
    hide Picks, Makes;
    if rows == [] {
      at := [];
      NothingPicked(keep, of);
    } else {
      var before := ConfirmedPicks(rows[1..], get, keep, of);
      at := (if keep(rows[0]) then [0] else []) + Shifted(before);
      PicksMore(before, rows, keep);
      MakesMore(if get(rows[0]).Some? then [get(rows[0]).value] else [], Confirmed(rows[1..], get), rows, before, of);
    }
  }

  lemma NothingPicked(keep: Row -> bool, of: (Row, Record) -> bool)
    ensures Picks([], [], keep) && Makes([], [], [], of)
  {
  }

  /** A page examines candidates until it is full or they end. */
  lemma {:induction false} ExaminedIs(candidates: seq<Row>, kind: Option<string>, size: nat)
    requires size > 0
    ensures var n := Examined(candidates, kind, size);
      && |Matching(candidates[..n], kind)| <= size
      && (|Matching(candidates[..n], kind)| < size ==> n == |candidates|)
      && (n < |candidates| ==> Fits(candidates[n - 1], kind))
  {
    if candidates != [] {
      var n := Examined(candidates, kind, size);
      hide Fits;
      assert candidates[..n][0] == candidates[0] && candidates[..n][1..] == candidates[1..][..n - 1];
      if !(Fits(candidates[0], kind) && size == 1) {
        ExaminedIs(candidates[1..], kind, if Fits(candidates[0], kind) then size - 1 else size);
      } else {
        assert candidates[..1][1..] == [];
      }
    }
  }

  predicate Reaches(row: Row, upper: Key, after: Option<Key>) {
    && (row.key == upper || Before(row.key, upper))
    && (after.Some? ==> Before(after.value, row.key))
  }

  function Least(a: nat, b: nat): nat { if a < b then a else b }

  /** The key that a page ends at: that of the last row it examined, or where it began. */
  function Last(page: seq<Row>, after: Option<Key>): Option<Key> { if page != [] then Some(page[|page| - 1].key) else after }

  /**
   * The rows a page examines: from the first in reach on, in order, at most twice its size and at most 200, until it is
   * full or they end; `shown` are those of the kind asked for.
   */
  ghost predicate Examines(page: seq<Row>, shown: seq<Row>, before: seq<Row>, upper: Key, after: Option<Key>, size: nat,
                           kind: Option<string>, read: seq<nat>, picked: seq<nat>) {
    && Picks(read, before, (row: Row) => Reaches(row, upper, after))
    && |page| <= Least(|read|, Least(2 * size, 200)) && Same(page, before, read[..|page|])
    && Leaves(shown, page, (row: Row) => kind.None? || row.kind == kind, picked) && |shown| <= size
    && (|shown| < size ==> |page| == Least(|read|, Least(2 * size, 200)))
    && (0 < |page| < Least(|read|, Least(2 * size, 200)) ==> kind.None? || page[|page| - 1].kind == kind)
  }

  /**
   * The answer of a page without conflict: the confirmed rows, the total of the cursor, the number of the others, and a
   * cursor to go on from exactly if a row is left behind the last one examined.
   */
  ghost predicate Replies(reply: Reply, page: seq<Row>, shown: seq<Row>, before: seq<Row>, lib: Library, scope: Scope, state: State,
                          after: Option<Key>, get: Row -> Option<Record>, answered: seq<nat>) {
    var last := Last(page, after);
    && reply.Page? && reply.total == state.total && Answered(reply.results, shown, get, answered)
    && reply.staleSkipped + |reply.results| == |shown|
    && (reply.next.Some? <==> last.Some? && exists row :: row in before && Reaches(row, state.upper, last))
    && (reply.next.Some? ==>
          reply.next.value == EncodeCursor(lib, State(state.snapshotAt, state.upper, last.value, state.total), scope))
  }

  lemma CandidatesExamined(before: seq<Row>, upper: Key, after: Option<Key>, size: nat, kind: Option<string>)
      returns (page: seq<Row>, shown: seq<Row>, read: seq<nat>, picked: seq<nat>)
    requires 1 <= size
    ensures var candidates := Candidates(before, upper, after, Min(size * 2, 200));
      && page == candidates[..Examined(candidates, kind, size)] && shown == Matching(page, kind)
      && |page| == Examined(candidates, kind, size)
    ensures Examines(page, shown, before, upper, after, size, kind, read, picked)
  {
    hide Picks, Select, Matching, Reaches, Fits;
    var inReach, fits := (row: Row) => Reaches(row, upper, after), (row: Row) => kind.None? || row.kind == kind;
    InReach(upper, after);
    read := SelectLeaves(before, upper, after, inReach);
    var candidates := Candidates(before, upper, after, Min(size * 2, 200));
    page := candidates[..Examined(candidates, kind, size)];
    shown := Matching(page, kind);
    FitsIs(kind);
    picked := MatchingLeaves(page, kind, fits);
    ExaminedIs(candidates, kind, size);
    hide Examined;
    SameFirst(Select(before, upper, after), before, read, |page|);
  }

  lemma InReach(upper: Key, after: Option<Key>)
    ensures forall row: Row :: InRange(row.key, upper, after) <==> Reaches(row, upper, after)
  {
    hide Before;
  }

  lemma FitsIs(kind: Option<string>)
    ensures forall row: Row :: Fits(row, kind) <==> kind.None? || row.kind == kind
  {
  }

  lemma SameFirst(all: seq<Row>, rows: seq<Row>, at: seq<nat>, n: nat)
    requires Same(all, rows, at) && n <= |all|
    ensures Same(all[..n], rows, at[..n])
  {
  }

  lemma SelectNone(rows: seq<Row>, upper: Key, after: Option<Key>)
    ensures Candidates(rows, upper, after, 1) != [] <==> exists row :: row in rows && Reaches(row, upper, after)
  {
    hide Select, Reaches, Leaves;
    var keep := (row: Row) => Reaches(row, upper, after);
    InReach(upper, after);
    var at := SelectLeaves(rows, upper, after, keep);
    LeavesSome(Select(rows, upper, after), rows, keep, at);
  }

  /**
   * One page: it is refused exactly if a row it shows has changed or gone by the second reading; otherwise it answers as
   * `Replies` says, and of that reading exactly the shown rows that upstream does not confirm are marked.
   */
  lemma PageIs(reply: Reply, before: seq<Row>, later: seq<Row>, rows: seq<Row>, lib: Library, scope: Scope, state: State,
               after: Option<Key>, size: nat, kind: Option<string>, get: Row -> Option<Record>)
      returns (page: seq<Row>, shown: seq<Row>, read: seq<nat>, picked: seq<nat>, answered: seq<nat>, left: seq<nat>)
    requires 1 <= size && Answers(reply, before, later, rows, lib, scope, state, after, size, kind, get)
    ensures Examines(page, shown, before, state.upper, after, size, kind, read, picked)
    ensures reply.Conflict? <==> exists row :: row in shown && row !in later
    ensures !reply.Conflict? ==> Replies(reply, page, shown, before, lib, scope, state, after, get, answered)
    ensures !reply.Conflict? ==> Leaves(rows, later, (row: Row) => !(row in shown && get(row).None?), left)
  {
    hide Examines, Select, Matching, Unconfirmed, Confirmed, Without, EncodeCursor, Leaves, Reaches, Examined, Candidates, Answered;
    page, shown, read, picked := CandidatesExamined(before, state.upper, after, size, kind);
    answered, left := [], [];
    if !reply.Conflict? {
      var last := Last(page, after);
      answered := ConfirmedAnswers(shown, get);
      ConfirmedCounts(shown, get);
      if last.Some? { SelectNone(before, state.upper, last); }
      UnconfirmedIs(shown, get);
      left := WithoutLeaves(later, Unconfirmed(shown, get), (row: Row) => !(row in shown && get(row).None?));
    }
  }

  lemma UnconfirmedIs(rows: seq<Row>, get: Row -> Option<Record>)
    ensures forall row :: row in Unconfirmed(rows, get) <==> row in rows && get(row).None?
  {
    var at := UnconfirmedLeaves(rows, get, (row: Row) => get(row).None?);
    hide Unconfirmed;
    forall row | row in rows && get(row).None? ensures row in Unconfirmed(rows, get) {
      var i: nat :| i < |rows| && rows[i] == row;
      assert i in at;
      var k :| 0 <= k < |at| && at[k] == i;
      assert Unconfirmed(rows, get)[k] == row;
    }
  }

  /**
   * What a whole traversal answers: of the rows of the kind asked for, in key order, what upstream confirms, each once.
   */
  lemma VisitedAre(rows: seq<Row>, kind: Option<string>, get: Row -> Option<Record>) returns (shown: seq<Row>, picked: seq<nat>, answered: seq<nat>)
    ensures Leaves(shown, rows, (row: Row) => kind.None? || row.kind == kind, picked) && |shown| == |Matching(rows, kind)|
    ensures Answered(Confirmed(Matching(rows, kind), get), shown, get, answered)
  {
    hide Matching, Confirmed, Leaves, Answered;
    shown := Matching(rows, kind);
    picked := MatchingLeaves(rows, kind, (row: Row) => kind.None? || row.kind == kind);
    answered := ConfirmedAnswers(shown, get);
  }
}
