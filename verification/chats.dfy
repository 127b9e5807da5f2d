/**
 * The room list of `/chats`. A user's rooms are stored as one
 * comma-separated string; codes of rooms that no longer exist are dropped
 * (and the string rewritten when any was dropped), and the rooms that have
 * messages are listed newest message first.
 */
module Chats {
  import opened Common

  const Comma := ','

  /** `String.prototype.split` on one character: the pieces between separators, empty ones included. */
  function Split(s: string, sep: char): (r: seq<string>)
    ensures |r| >= 1
    ensures forall i :: 0 <= i < |r| ==> sep !in r[i]
    decreases |s|
  {
    if sep !in s then [s]
    else
      var i := FirstIndex(s, sep);
      [s[..i]] + Split(s[i + 1..], sep)
  }

  function FirstIndex(s: string, c: char): (i: nat)
    requires c in s
    ensures i < |s| && s[i] == c && c !in s[..i]
    ensures forall k :: 0 <= k < i ==> s[k] != c
  {
    if s[0] == c then 0
    else
      var j := FirstIndex(s[1..], c);
      assert s[..j + 1] == [s[0]] + s[1..][..j];
      j + 1
  }

  /** `Array.prototype.join`: the pieces with the separator between them. */
  function Join(xs: seq<string>, sep: char): string
    decreases |xs|
  {
    if |xs| == 0 then "" else if |xs| == 1 then xs[0] else xs[0] + [sep] + Join(xs[1..], sep)
  }

  /** Joining the pieces of a split gives back the string. */
  lemma {:induction false} JoinSplit(s: string, sep: char)
    ensures Join(Split(s, sep), sep) == s
    decreases |s|
  {
    if sep in s {
      var i := FirstIndex(s, sep);
      var rest := Split(s[i + 1..], sep);
      JoinSplit(s[i + 1..], sep);
      assert Split(s, sep) == [s[..i]] + rest;
      assert (Split(s, sep))[1..] == rest;
      assert s == s[..i] + [sep] + s[i + 1..];
    }
  }

  /** Splitting a join of separator-free pieces gives back the pieces. */
  lemma {:induction false} SplitJoin(xs: seq<string>, sep: char)
    requires |xs| >= 1 && forall i :: 0 <= i < |xs| ==> sep !in xs[i]
    ensures Split(Join(xs, sep), sep) == xs
    decreases |xs|
  {
    if |xs| > 1 {
      var s := Join(xs, sep);
      var tail := Join(xs[1..], sep);
      assert s == xs[0] + [sep] + tail;
      assert sep in s by { assert s[|xs[0]|] == sep; }
      var i := FirstIndex(s, sep);
      assert s[|xs[0]|] == sep;
      assert forall k :: 0 <= k < |xs[0]| ==> s[k] == xs[0][k];
      assert i == |xs[0]|;
      assert s[..i] == xs[0];
      assert s[i + 1..] == tail;
      SplitJoin(xs[1..], sep);
    }
  }

  /**
   * `idx` lists, in increasing order, exactly the positions of `codes` that
   * name an existing room.
   */
  predicate ExistingPositions(codes: seq<string>, existing: set<string>, idx: seq<nat>) {
    && (forall k :: 0 <= k < |idx| ==> idx[k] < |codes| && codes[idx[k]] in existing)
    && (forall k, l :: 0 <= k < l < |idx| ==> idx[k] < idx[l])
    && (forall i :: 0 <= i < |codes| && codes[i] in existing ==> i in idx)
  }

  /** The positions of `codes` that name an existing room. */
  ghost function KeptPositions(codes: seq<string>, existing: set<string>): (idx: seq<nat>)
    ensures ExistingPositions(codes, existing, idx)
    decreases |codes|
  {
    if |codes| == 0 then []
    else
      var init := codes[..|codes| - 1];
      var p := KeptPositions(init, existing);
      assert forall k :: 0 <= k < |p| ==> codes[p[k]] == init[p[k]];
      assert forall i :: 0 <= i < |init| ==> codes[i] == init[i];
      p + (if codes[|codes| - 1] in existing then [|codes| - 1] else [])
  }

  /**
   * `roomCodes.filter(code => existing.has(code))`: the codes that name an
   * existing room, in their stored order and with their repetitions; the
   * `k`-th kept code is the code at the `k`-th existing position.
   */
  function KeepExisting(codes: seq<string>, existing: set<string>): (r: seq<string>)
    ensures |r| <= |codes|
    ensures forall c :: c in r <==> c in codes && c in existing
    ensures |r| == |codes| <==> forall i :: 0 <= i < |codes| ==> codes[i] in existing
    ensures |r| == |codes| ==> r == codes
    ensures var idx := KeptPositions(codes, existing);
              |r| == |idx| && forall k :: 0 <= k < |r| ==> r[k] == codes[idx[k]]
    decreases |codes|
  {
    if |codes| == 0 then []
    else
      var init := codes[..|codes| - 1];
      var last := codes[|codes| - 1];
      var rest := KeepExisting(init, existing);
      var r := rest + (if last in existing then [last] else []);
      KeepExistingStep(codes, existing, rest, r);
      KeptPositionsStep(codes, existing, rest, r);
      r
  }

  /** The step of `KeepExisting`: appending the last code, if it exists, to the kept codes of the others. */
  lemma KeepExistingStep(codes: seq<string>, existing: set<string>, rest: seq<string>, r: seq<string>)
    requires |codes| > 0
    requires var init := codes[..|codes| - 1];
      && |rest| <= |init|
      && (forall c :: c in rest <==> c in init && c in existing)
      && (|rest| == |init| <==> forall i :: 0 <= i < |init| ==> init[i] in existing)
      && (|rest| == |init| ==> rest == init)
    requires r == rest + (if codes[|codes| - 1] in existing then [codes[|codes| - 1]] else [])
    ensures |r| <= |codes|
    ensures forall c :: c in r <==> c in codes && c in existing
    ensures |r| == |codes| <==> forall i :: 0 <= i < |codes| ==> codes[i] in existing
    ensures |r| == |codes| ==> r == codes
  {
    var init := codes[..|codes| - 1];
    var last := codes[|codes| - 1];
    assert codes == init + [last];
    if |r| == |codes| {
      assert last in existing && |rest| == |init|;
    }
    if forall i :: 0 <= i < |codes| ==> codes[i] in existing {
      assert forall i :: 0 <= i < |init| ==> init[i] == codes[i];
    }
  }

  /** The same step for the positions: the last code's position, if it exists, follows the others'. */
  lemma KeptPositionsStep(codes: seq<string>, existing: set<string>, rest: seq<string>, r: seq<string>)
    requires |codes| > 0
    requires var p := KeptPositions(codes[..|codes| - 1], existing);
               |rest| == |p| && forall k :: 0 <= k < |rest| ==> rest[k] == codes[..|codes| - 1][p[k]]
    requires r == rest + (if codes[|codes| - 1] in existing then [codes[|codes| - 1]] else [])
    ensures var idx := KeptPositions(codes, existing);
              |r| == |idx| && forall k :: 0 <= k < |r| ==> r[k] == codes[idx[k]]
  {
    var init := codes[..|codes| - 1];
    var p := KeptPositions(init, existing);
    var idx := KeptPositions(codes, existing);
    assert idx == p + (if codes[|codes| - 1] in existing then [|codes| - 1] else []);
    forall k | 0 <= k < |r| ensures r[k] == codes[idx[k]] {
      if k < |rest| {
        assert idx[k] == p[k] && p[k] < |init| && init[p[k]] == codes[p[k]];
      }
    }
  }

  /**
   * The kept codes are a filter of the stored ones: some increasing choice of
   * positions, covering every code that names an existing room, gives them
   * one for one. So no existing code is dropped, repeated or moved.
   */
  lemma KeepExistingIsFilter(codes: seq<string>, existing: set<string>)
    ensures var r := KeepExisting(codes, existing);
      exists idx :: ExistingPositions(codes, existing, idx) && |idx| == |r|
                    && forall k :: 0 <= k < |r| ==> r[k] == codes[idx[k]]
  {
    var idx := KeptPositions(codes, existing);
    assert ExistingPositions(codes, existing, idx);
  }

  /** `"a,b,a"` with only room `a` existing keeps both `a`s, in place. */
  lemma KeepsRepeatsInOrder()
    ensures KeepExisting(["a", "b", "a"], {"a"}) == ["a", "a"]
  {
    assert ["a", "b", "a"][..2] == ["a", "b"];
    assert ["a", "b"][..1] == ["a"];
    assert KeepExisting(["a"], {"a"}) == ["a"];
    assert KeepExisting(["a", "b"], {"a"}) == ["a"];
  }

  lemma {:induction false} KeepExistingSeparatorFree(codes: seq<string>, existing: set<string>, sep: char)
    requires forall i :: 0 <= i < |codes| ==> sep !in codes[i]
    ensures forall i :: 0 <= i < |KeepExisting(codes, existing)| ==> sep !in KeepExisting(codes, existing)[i]
  {
    var r := KeepExisting(codes, existing);
    forall i | 0 <= i < |r| ensures sep !in r[i] {
      assert r[i] in r;
    }
  }

  /**
   * The room string after the cleanup: an empty string is left alone;
   * otherwise it is rewritten to the existing codes only when some code was
   * dropped.
   */
  function CleanRooms(rooms: string, existing: set<string>): (r: string)
    ensures rooms == "" ==> r == ""
    ensures rooms != "" && (forall c :: c in Split(rooms, Comma) ==> c in existing) ==> r == rooms
    ensures rooms != "" ==> r == Join(KeepExisting(Split(rooms, Comma), existing), Comma)
  {
    if rooms == "" then rooms
    else
      var codes := Split(rooms, Comma);
      var valid := KeepExisting(codes, existing);
      if |valid| != |codes| then Join(valid, Comma)
      else
        JoinSplit(rooms, Comma);
        rooms
  }

  /** After the cleanup, every stored code names an existing room. */
  lemma CleanRoomsKeepsOnlyExisting(rooms: string, existing: set<string>)
    requires CleanRooms(rooms, existing) != ""
    ensures forall c :: c in Split(CleanRooms(rooms, existing), Comma) ==> c in existing
  {
    var codes := Split(rooms, Comma);
    var valid := KeepExisting(codes, existing);
    KeepExistingSeparatorFree(codes, existing, Comma);
    if |valid| >= 1 {
      SplitJoin(valid, Comma);
    }
  }

  /** Running the cleanup twice changes nothing the first run did not. */
  lemma CleanRoomsIdempotent(rooms: string, existing: set<string>)
    ensures CleanRooms(CleanRooms(rooms, existing), existing) == CleanRooms(rooms, existing)
  {
    var once := CleanRooms(rooms, existing);
    if once != "" {
      CleanRoomsKeepsOnlyExisting(rooms, existing);
    }
  }

  /** A listed room and the timestamp of its newest message. */
  datatype RoomEntry = RoomEntry(code: string, latest: int)

  predicate NewestFirst(rs: seq<RoomEntry>) {
    forall i, j :: 0 <= i < j < |rs| ==> rs[i].latest >= rs[j].latest
  }

  lemma NewestFirstTail(rs: seq<RoomEntry>)
    requires NewestFirst(rs) && |rs| > 0
    ensures NewestFirst(rs[1..])
    ensures |rs| > 1 ==> rs[0].latest >= rs[1].latest
  {
  }

  lemma NewestFirstCons(e: RoomEntry, rs: seq<RoomEntry>)
    requires NewestFirst(rs) && (|rs| > 0 ==> e.latest >= rs[0].latest)
    ensures NewestFirst([e] + rs)
  {
    var t := [e] + rs;
    forall i, j | 0 <= i < j < |t| ensures t[i].latest >= t[j].latest {
      if i == 0 {
        assert t[j] == rs[j - 1];
        assert rs[0].latest >= rs[j - 1].latest || j == 1;
      } else {
        assert t[i] == rs[i - 1] && t[j] == rs[j - 1];
      }
    }
  }

  function InsertByLatest(e: RoomEntry, rs: seq<RoomEntry>): (r: seq<RoomEntry>)
    requires NewestFirst(rs)
    ensures NewestFirst(r)
    ensures multiset(r) == multiset(rs) + multiset{e}
    ensures |r| == |rs| + 1
    ensures r[0] == e || (|rs| > 0 && r[0] == rs[0])
    ensures forall i :: 0 <= i < |r| ==> r[i] == e || r[i] in rs
    decreases |rs|
  {
    if |rs| == 0 then [e]
    else if e.latest >= rs[0].latest then
      NewestFirstCons(e, rs);
      [e] + rs
    else
      var t := rs[1..];
      assert rs == [rs[0]] + t;
      NewestFirstTail(rs);
      var r := InsertByLatest(e, t);
      NewestFirstCons(rs[0], r);
      [rs[0]] + r
  }

  /**
   * The entries ordered newest message first. The order of entries with
   * equal times is not fixed by this contract; the source's
   * `Array.prototype.sort` keeps them in input order (it is stable from
   * ES2019 on).
   */
  function SortByLatest(rs: seq<RoomEntry>): (r: seq<RoomEntry>)
    ensures NewestFirst(r)
    ensures multiset(r) == multiset(rs)
    ensures |r| == |rs|
    decreases |rs|
  {
    if |rs| == 0 then []
    else
      assert rs == [rs[0]] + rs[1..];
      InsertByLatest(rs[0], SortByLatest(rs[1..]))
  }

  function Codes(rs: seq<RoomEntry>): (r: seq<string>)
    ensures |r| == |rs| && forall i :: 0 <= i < |rs| ==> r[i] == rs[i].code
    decreases |rs|
  {
    if |rs| == 0 then [] else [rs[0].code] + Codes(rs[1..])
  }

  /** The existing rooms that have messages, each with its newest message's time. */
  function WithMessages(existingRooms: seq<string>, latest: map<string, int>): (r: seq<RoomEntry>)
    ensures forall e :: e in r <==> e.code in existingRooms && e.code in latest && latest[e.code] == e.latest
    decreases |existingRooms|
  {
    if |existingRooms| == 0 then []
    else
      var rest := WithMessages(existingRooms[1..], latest);
      assert forall c :: c in existingRooms <==> c == existingRooms[0] || c in existingRooms[1..];
      var c := existingRooms[0];
      if c in latest then [RoomEntry(c, latest[c])] + rest else rest
  }

  /**
   * The rooms shown: those among the existing ones that have a message,
   * newest message first. `latest` maps each room that has messages to
   * its newest message's time.
   */
  function ListedRooms(existingRooms: seq<string>, latest: map<string, int>): seq<string> {
    Codes(SortByLatest(WithMessages(existingRooms, latest)))
  }

  /** Each entry names an existing room and carries that room's newest-message time. */
  predicate Faithful(rs: seq<RoomEntry>, existingRooms: seq<string>, latest: map<string, int>) {
    forall i :: 0 <= i < |rs| ==> rs[i].code in existingRooms && rs[i].code in latest && latest[rs[i].code] == rs[i].latest
  }

  lemma SortedEntriesFaithful(existingRooms: seq<string>, latest: map<string, int>)
    ensures Faithful(SortByLatest(WithMessages(existingRooms, latest)), existingRooms, latest)
  {
    var found := WithMessages(existingRooms, latest);
    var sorted := SortByLatest(found);
    forall i | 0 <= i < |sorted| ensures sorted[i] in found {
      assert sorted[i] in multiset(sorted);
    }
  }

  /** Exactly the existing rooms that have a message are listed, one entry per room found. */
  lemma ListedRoomsMembership(existingRooms: seq<string>, latest: map<string, int>)
    ensures |ListedRooms(existingRooms, latest)| == |WithMessages(existingRooms, latest)|
    ensures forall c :: c in ListedRooms(existingRooms, latest) <==> c in existingRooms && c in latest
  {
    SortedEntriesFaithful(existingRooms, latest);
    ListedRoomsAreFound(existingRooms, latest);
    FoundRoomsAreListed(existingRooms, latest);
  }

  lemma ListedRoomsAreFound(existingRooms: seq<string>, latest: map<string, int>)
    ensures forall c :: c in ListedRooms(existingRooms, latest) ==> c in existingRooms && c in latest
  {
    var sorted := SortByLatest(WithMessages(existingRooms, latest));
    var r := Codes(sorted);
    SortedEntriesFaithful(existingRooms, latest);
    forall c | c in r ensures c in existingRooms && c in latest {
      var i :| 0 <= i < |r| && r[i] == c;
      assert r[i] == sorted[i].code;
      assert sorted[i].code in existingRooms && sorted[i].code in latest;
    }
  }

  lemma FoundRoomsAreListed(existingRooms: seq<string>, latest: map<string, int>)
    ensures forall c :: c in existingRooms && c in latest ==> c in ListedRooms(existingRooms, latest)
  {
    var found := WithMessages(existingRooms, latest);
    var sorted := SortByLatest(found);
    var r := Codes(sorted);
    SortedEntriesFaithful(existingRooms, latest);
    forall c | c in existingRooms && c in latest ensures c in r {
      var e := RoomEntry(c, latest[c]);
      assert e in multiset(found);
      var i :| 0 <= i < |sorted| && sorted[i] == e;
      assert r[i] == c;
    }
  }

  /** The listed rooms appear in order of their newest message, newest first. */
  lemma ListedRoomsNewestFirst(existingRooms: seq<string>, latest: map<string, int>)
    ensures var r := ListedRooms(existingRooms, latest);
            forall i, j :: 0 <= i < j < |r| ==> r[i] in latest && r[j] in latest && latest[r[i]] >= latest[r[j]]
  {
    var sorted := SortByLatest(WithMessages(existingRooms, latest));
    SortedEntriesFaithful(existingRooms, latest);
    var r := Codes(sorted);
    forall i, j | 0 <= i < j < |r|
      ensures r[i] in latest && r[j] in latest && latest[r[i]] >= latest[r[j]]
    {
      assert r[i] == sorted[i].code && r[j] == sorted[j].code;
      assert latest[sorted[i].code] == sorted[i].latest;
      assert latest[sorted[j].code] == sorted[j].latest;
      assert sorted[i].latest >= sorted[j].latest;
    }
  }
}
