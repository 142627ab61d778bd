/**
 * Queue entries and the edits the application makes to a playlist's `tracks` array:
 * `$pull` by entry id, the two `splice` calls of a reorder, and the positional
 * `$inc`/`$push`/`$pull` of a vote.
 */
module Queue {
  import opened Wrappers
  import opened Json

  type EntryId = string
  type UserId = string

  /** `{_id, name}` of a user, as recorded in `addedBy`. */
  datatype User = User(id: UserId, name: string)

  /** One queued track.  Entries are pushed without `votes` or `voters`; the store's
      `$inc` and `$push` treat those missing fields as 0 and [], which is how they start here.
      A voter `{_id: u}` is kept as `u`. */
  datatype Entry = Entry(id: EntryId, track: Value, addedBy: Option<User>, votes: int, voters: seq<UserId>)

  /** The entry pushed by an add: a fresh id, the projected track, who added it. */
  function NewEntry(id: EntryId, track: Value, addedBy: Option<User>): (e: Entry)
    ensures e.id == id && e.track == track && e.addedBy == addedBy
    ensures e.votes == 0 && e.voters == []
  {
    Entry(id, track, addedBy, 0, [])
  }

  predicate HasId(q: seq<Entry>, id: EntryId) {
    exists i :: 0 <= i < |q| && q[i].id == id
  }

  predicate UniqueIds(q: seq<Entry>) {
    forall i, j :: 0 <= i < j < |q| ==> q[i].id != q[j].id
  }

  predicate NoDuplicates(s: seq<UserId>) {
    forall i, j :: 0 <= i < j < |s| ==> s[i] != s[j]
  }

  /** The vote count agrees with the voters, each user voting at most once. */
  predicate VotesConsistent(e: Entry) {
    e.votes == |e.voters| && NoDuplicates(e.voters)
  }

  /** A well-formed entry: consistent votes and a stored track object. */
  predicate EntryOk(e: Entry) {
    VotesConsistent(e) && Truthy(e.track)
  }

  /** A well-formed queue: unique ids and well-formed entries. */
  predicate ValidQueue(q: seq<Entry>) {
    UniqueIds(q) && forall i :: 0 <= i < |q| ==> EntryOk(q[i])
  }

  // ---------------------------------------------------------------------------------
  // `$pull: {tracks: {_id: id}}`

  /** The queue with every entry whose id is `id` removed, the rest in their order. */
  function Without(q: seq<Entry>, id: EntryId): (r: seq<Entry>)
    ensures |r| <= |q|
  {
    if q == [] then []
    else if q[0].id == id then Without(q[1..], id)
    else [q[0]] + Without(q[1..], id)
  }

  /** The pull keeps exactly the entries whose id differs. */
  lemma {:induction false} WithoutMembers(q: seq<Entry>, id: EntryId, e: Entry)
    ensures e in Without(q, id) <==> e in q && e.id != id
  {
    if q != [] {
      WithoutMembers(q[1..], id, e);
      assert q == [q[0]] + q[1..];
    }
  }

  /** Pulling an id that is not queued leaves the queue as it was. */
  lemma {:induction false} WithoutAbsent(q: seq<Entry>, id: EntryId)
    requires !HasId(q, id)
    ensures Without(q, id) == q
  {
    if q != [] {
      assert !HasId(q[1..], id) by {
        forall i | 0 <= i < |q[1..]| ensures q[1..][i].id != id {
          assert q[1..][i] == q[i + 1];
        }
      }
      WithoutAbsent(q[1..], id);
      assert q == [q[0]] + q[1..];
    }
  }

  /** With unique ids, pulling the id of entry k removes exactly that entry. */
  lemma WithoutAt(q: seq<Entry>, k: nat)
    requires UniqueIds(q) && k < |q|
    ensures Without(q, q[k].id) == q[..k] + q[k + 1..]
  {
    OthersLackId(q, k);
    WithoutOnly(q, k);
  }

  /** When entry k is the only one with its id, pulling that id removes entry k. */
  lemma WithoutOnly(q: seq<Entry>, k: nat)
    requires k < |q| && !HasId(q[..k], q[k].id) && !HasId(q[k + 1..], q[k].id)
    ensures Without(q, q[k].id) == q[..k] + q[k + 1..]
  {
    SplitAt(q, k);
    WithoutOne(q[..k], q[k], q[k + 1..], q[k].id);
  }

  lemma SplitAt<T>(q: seq<T>, k: nat)
    requires k < |q|
    ensures q == q[..k] + ([q[k]] + q[k + 1..])
  {
  }

  /** With unique ids, no entry before or after entry k has its id. */
  lemma OthersLackId(q: seq<Entry>, k: nat)
    requires UniqueIds(q) && k < |q|
    ensures !HasId(q[..k], q[k].id) && !HasId(q[k + 1..], q[k].id)
  {
    var before, after := q[..k], q[k + 1..];
    forall i | 0 <= i < |before| ensures before[i].id != q[k].id {
      assert before[i] == q[i];
    }
    forall i | 0 <= i < |after| ensures after[i].id != q[k].id {
      assert after[i] == q[k + 1 + i];
    }
  }

  /** Pulling the id of the only entry that has it removes just that entry. */
  lemma WithoutOne(before: seq<Entry>, e: Entry, after: seq<Entry>, id: EntryId)
    requires e.id == id && !HasId(before, id) && !HasId(after, id)
    ensures Without(before + ([e] + after), id) == before + after
  {
    assert Without(before, id) == before by {
      WithoutAbsent(before, id);
    }
    assert Without([e] + after, id) == after by {
      assert ([e] + after)[1..] == after;
      WithoutAbsent(after, id);
    }
    WithoutConcat(before, [e] + after, id);
  }

  /** A pull works entry by entry: it distributes over concatenation. */
  lemma {:induction false} WithoutConcat(a: seq<Entry>, b: seq<Entry>, id: EntryId)
    ensures Without(a + b, id) == Without(a, id) + Without(b, id)
  {
    if a == [] {
      assert a + b == b;
    } else {
      assert (a + b)[0] == a[0] && (a + b)[1..] == a[1..] + b;
      WithoutConcat(a[1..], b, id);
    }
  }

  /** The tail of a queue with unique ids has unique ids and does not hold the head's id. */
  lemma UniqueTail(q: seq<Entry>)
    requires UniqueIds(q) && q != []
    ensures UniqueIds(q[1..]) && !HasId(q[1..], q[0].id)
  {
    forall i | 0 <= i < |q[1..]| ensures q[1..][i].id != q[0].id {
      assert q[1..][i] == q[i + 1];
    }
  }

  lemma {:induction false} WithoutKeepsUnique(q: seq<Entry>, id: EntryId)
    requires UniqueIds(q)
    ensures UniqueIds(Without(q, id))
  {
    if q != [] {
      UniqueTail(q);
      WithoutKeepsUnique(q[1..], id);
      if q[0].id != id {
        WithoutKeepsAbsent(q[1..], id, q[0].id);
        ConsUnique(q[0], Without(q[1..], id));
      }
    }
  }

  /** An id missing from the queue is missing after a pull. */
  lemma {:induction false} WithoutKeepsAbsent(q: seq<Entry>, id: EntryId, x: EntryId)
    requires !HasId(q, x)
    ensures !HasId(Without(q, id), x)
  {
    if q != [] {
      assert !HasId(q[1..], x) by {
        forall i | 0 <= i < |q[1..]| ensures q[1..][i].id != x {
          assert q[1..][i] == q[i + 1];
        }
      }
      WithoutKeepsAbsent(q[1..], id, x);
      if q[0].id != id {
        var r := [q[0]] + Without(q[1..], id);
        forall i | 0 <= i < |r| ensures r[i].id != x {
          if i > 0 {
            assert r[i] == Without(q[1..], id)[i - 1];
          }
        }
      }
    }
  }

  /** Putting an entry with a new id in front keeps ids unique. */
  lemma ConsUnique(e: Entry, q: seq<Entry>)
    requires UniqueIds(q) && !HasId(q, e.id)
    ensures UniqueIds([e] + q)
  {
    var r := [e] + q;
    forall i, j | 0 <= i < j < |r| ensures r[i].id != r[j].id {
      assert r[j] == q[j - 1];
      if i > 0 {
        assert r[i] == q[i - 1];
      }
    }
  }

  lemma WithoutKeepsValid(q: seq<Entry>, id: EntryId)
    requires ValidQueue(q)
    ensures ValidQueue(Without(q, id))
  {
    WithoutKeepsUnique(q, id);
    var w := Without(q, id);
    forall i | 0 <= i < |w| ensures EntryOk(w[i]) {
      WithoutMembers(q, id, w[i]);
      var m :| 0 <= m < |q| && q[m] == w[i];
    }
  }

  // ---------------------------------------------------------------------------------
  // Reorder: `tracks.splice(from, 1)` then `tracks.splice(to, 0, source)`

  /** Where `splice` starts for a start argument `k` on an array of length `len`:
      a negative start counts from the end, and both ends are clamped. */
  function SpliceStart(k: int, len: nat): (r: nat)
    ensures r <= len
    ensures 0 <= k <= len ==> r == k
    ensures -(len as int) <= k < 0 ==> r as int == len as int + k
    ensures k > len ==> r == len
    ensures k < -(len as int) ==> r == 0
  {
    if k < 0 then (if len + k < 0 then 0 else len + k)
    else if k > len then len else k
  }

  /** `from` picks an element of an array of length `len`. */
  predicate InRange(from: int, len: nat) {
    SpliceStart(from, len) < len
  }

  function Lift<T>(s: seq<T>): (r: seq<Option<T>>)
    ensures |r| == |s|
    ensures forall i :: 0 <= i < |s| ==> r[i] == Some(s[i])
  {
    seq(|s|, i requires 0 <= i < |s| => Some(s[i]))
  }

  /** The move exactly as the handler performs it.  When `from` picks no element the first
      splice removes nothing, `source` is `undefined`, and the second splice inserts that
      `undefined` (None here) into the queue. */
  function MoveAsWritten<T>(s: seq<T>, from: int, to: int): (r: seq<Option<T>>)
    ensures |r| == if InRange(from, |s|) then |s| else |s| + 1
    ensures forall o :: o in r && o.Some? ==> o.value in s
  {
    var xs := Lift(s);
    var f := SpliceStart(from, |s|);
    var n := if f < |s| then 1 else 0;
    var source := if f < |s| then Some(s[f]) else None;
    var rest := xs[..f] + xs[f + n..];
    var t := SpliceStart(to, |rest|);
    rest[..t] + [source] + rest[t..]
  }

  /** A move whose `from` is out of range grows the queue by a hole. */
  lemma MoveAsWrittenOutOfRange<T>(s: seq<T>, from: int, to: int)
    requires !InRange(from, |s|)
    ensures |MoveAsWritten(s, from, to)| == |s| + 1
    ensures None in MoveAsWritten(s, from, to)
  {
    var t := SpliceStart(to, |s|);
    assert MoveAsWritten(s, from, to)[t] == None;
  }

  /** Concretely: moving from index 5 of a one-entry queue puts a hole in front of it. */
  lemma MoveAsWrittenExample()
    ensures MoveAsWritten(["A"], 5, 0) == [None, Some("A")]
  {
    assert Lift(["A"]) == [Some("A")];
  }

  /** The move as intended: the element at `from` is taken out and put back at `to`;
      a `from` that picks no element leaves the queue unchanged. */
  function Move<T>(s: seq<T>, from: int, to: int): (r: seq<T>)
    ensures |r| == |s|
    ensures !InRange(from, |s|) ==> r == s
  {
    var f := SpliceStart(from, |s|);
    if f < |s| then
      var rest := s[..f] + s[f + 1..];
      var t := SpliceStart(to, |rest|);
      rest[..t] + [s[f]] + rest[t..]
    else s
  }

  /** Where `from` is in range, the intended move is what the handler computes. */
  lemma MoveAgreesInRange<T>(s: seq<T>, from: int, to: int)
    requires InRange(from, |s|)
    ensures MoveAsWritten(s, from, to) == Lift(Move(s, from, to))
  {
    var f := SpliceStart(from, |s|);
    var rest := s[..f] + s[f + 1..];
    LiftRemove(s, f);
    LiftInsert(rest, SpliceStart(to, |rest|), s[f]);
  }

  lemma LiftRemove<T>(s: seq<T>, f: nat)
    requires f < |s|
    ensures Lift(s)[..f] + Lift(s)[f + 1..] == Lift(s[..f] + s[f + 1..])
  {
    var l, r := Lift(s)[..f] + Lift(s)[f + 1..], Lift(s[..f] + s[f + 1..]);
    forall i | 0 <= i < |r| ensures l[i] == r[i] {
      if i < f {
        assert l[i] == Lift(s)[i];
      } else {
        assert l[i] == Lift(s)[i + 1];
      }
    }
  }

  lemma LiftInsert<T>(r: seq<T>, t: nat, x: T)
    requires t <= |r|
    ensures Lift(r[..t] + [x] + r[t..]) == Lift(r)[..t] + [Some(x)] + Lift(r)[t..]
  {
    var a, b := Lift(r[..t] + [x] + r[t..]), Lift(r)[..t] + [Some(x)] + Lift(r)[t..];
    forall i | 0 <= i < |a| ensures a[i] == b[i] {
      if i < t {
        assert b[i] == Lift(r)[i];
      } else if i > t {
        assert b[i] == Lift(r)[i - 1];
      }
    }
  }

  /** A move in range puts the moved element at the target position and keeps every other
      element in its relative order. */
  lemma MovePlaces<T>(s: seq<T>, from: int, to: int)
    requires InRange(from, |s|)
    ensures var f := SpliceStart(from, |s|);
            var t := SpliceStart(to, |s| - 1);
            var r := Move(s, from, to);
            r[t] == s[f] && r[..t] + r[t + 1..] == s[..f] + s[f + 1..]
  {
    var f := SpliceStart(from, |s|);
    var rest := s[..f] + s[f + 1..];
    assert |rest| == |s| - 1;
    var t := SpliceStart(to, |s| - 1);
    var r := Move(s, from, to);
    assert r == rest[..t] + [s[f]] + rest[t..];
    InsertThenRemove(rest, t, s[f]);
    assert r[t] == s[f] && r[..t] + r[t + 1..] == rest;
  }

  /** Inserting `x` at `t` and taking position `t` out again gives the sequence back. */
  lemma InsertThenRemove<T>(rest: seq<T>, t: nat, x: T)
    requires t <= |rest|
    ensures var r := rest[..t] + [x] + rest[t..];
            r[t] == x && r[..t] + r[t + 1..] == rest
  {
    var r := rest[..t] + [x] + rest[t..];
    assert r[..t] == rest[..t];
    assert r[t + 1..] == rest[t..];
    assert rest[..t] + rest[t..] == rest;
  }

  /** Every move is a permutation of the queue. */
  lemma {:induction false} MovePermutes<T>(s: seq<T>, from: int, to: int)
    ensures multiset(Move(s, from, to)) == multiset(s)
  {
    var f := SpliceStart(from, |s|);
    if f < |s| {
      var rest := s[..f] + s[f + 1..];
      var t := SpliceStart(to, |rest|);
      assert s == s[..f] + [s[f]] + s[f + 1..];
      assert multiset(s) == multiset(rest) + multiset{s[f]};
      assert rest == rest[..t] + rest[t..];
      assert multiset(rest) == multiset(rest[..t]) + multiset(rest[t..]);
      assert Move(s, from, to) == rest[..t] + [s[f]] + rest[t..];
    }
  }

  /** The example move: index 2 to index 0 in [A,B,C,D] gives [C,A,B,D]. */
  lemma MoveExample()
    ensures Move(["A", "B", "C", "D"], 2, 0) == ["C", "A", "B", "D"]
  {
  }

  /** Taking entry f out of a queue with unique ids leaves unique ids, none of them f's. */
  lemma RemoveAtUnique(q: seq<Entry>, f: nat)
    requires UniqueIds(q) && f < |q|
    ensures UniqueIds(q[..f] + q[f + 1..]) && !HasId(q[..f] + q[f + 1..], q[f].id)
  {
    var rest := q[..f] + q[f + 1..];
    forall k | 0 <= k < |rest| ensures rest[k] == q[if k < f then k else k + 1] {
    }
  }

  /** Inserting an entry whose id is not queued keeps the ids unique. */
  lemma InsertAtUnique(rest: seq<Entry>, t: nat, e: Entry)
    requires UniqueIds(rest) && !HasId(rest, e.id) && t <= |rest|
    ensures UniqueIds(rest[..t] + [e] + rest[t..])
  {
    var r := rest[..t] + [e] + rest[t..];
    forall k | 0 <= k < |r| && k != t ensures r[k] == rest[if k < t then k else k - 1] {
    }
  }

  lemma MoveKeepsUnique(q: seq<Entry>, from: int, to: int)
    requires UniqueIds(q)
    ensures UniqueIds(Move(q, from, to))
  {
    var f := SpliceStart(from, |q|);
    if f < |q| {
      RemoveAtUnique(q, f);
      var rest := q[..f] + q[f + 1..];
      var t := SpliceStart(to, |rest|);
      InsertAtUnique(rest, t, q[f]);
      assert Move(q, from, to) == rest[..t] + [q[f]] + rest[t..];
    }
  }

  lemma MoveKeepsValid(q: seq<Entry>, from: int, to: int)
    requires ValidQueue(q)
    ensures ValidQueue(Move(q, from, to))
  {
    MoveKeepsUnique(q, from, to);
    var m := Move(q, from, to);
    forall i | 0 <= i < |m| ensures EntryOk(m[i]) {
      MoveKeepsEntries(q, from, to, m[i]);
    }
  }

  /** A move keeps exactly the entries it was given. */
  lemma MoveKeepsEntries<T>(s: seq<T>, from: int, to: int, x: T)
    ensures x in Move(s, from, to) <==> x in s
  {
    MovePermutes(s, from, to);
    assert x in Move(s, from, to) <==> x in multiset(Move(s, from, to));
  }

  // ---------------------------------------------------------------------------------
  // Votes: `$inc votes ±1` with `$push`/`$pull` of the voter, on the first entry with the id

  /** Whether some entry with id `id` lists `user` among its voters (the `$elemMatch` read). */
  function IsVoter(q: seq<Entry>, id: EntryId, user: UserId): (b: bool)
    ensures b <==> exists i :: 0 <= i < |q| && q[i].id == id && user in q[i].voters
  {
    if q == [] then false
    else (q[0].id == id && user in q[0].voters) || IsVoter(q[1..], id, user)
  }

  /** The position `tracks.$` resolves to for the filter `tracks._id: id`: the first entry
      with that id, or |q| when there is none. */
  function FirstIndex(q: seq<Entry>, id: EntryId): (k: nat)
    ensures k <= |q|
    ensures k < |q| ==> q[k].id == id
    ensures forall i :: 0 <= i < k ==> q[i].id != id
  {
    if q == [] then 0
    else if q[0].id == id then 0
    else 1 + FirstIndex(q[1..], id)
  }

  /** `$pull: {voters: {_id: user}}` */
  function RemoveVoter(voters: seq<UserId>, user: UserId): (r: seq<UserId>)
    ensures forall v :: v in r <==> v in voters && v != user
  {
    if voters == [] then []
    else if voters[0] == user then RemoveVoter(voters[1..], user)
    else [voters[0]] + RemoveVoter(voters[1..], user)
  }

  /** An upvote: one more vote, the user appended to the voters. */
  function Upvoted(e: Entry, user: UserId): (r: Entry)
    ensures r.id == e.id && r.track == e.track && r.addedBy == e.addedBy
    ensures r.votes == e.votes + 1 && r.voters == e.voters + [user]
  {
    e.(votes := e.votes + 1, voters := e.voters + [user])
  }

  /** A retraction: one vote fewer, the user pulled from the voters. */
  function Unvoted(e: Entry, user: UserId): (r: Entry)
    ensures r.id == e.id && r.track == e.track && r.addedBy == e.addedBy
    ensures r.votes == e.votes - 1 && r.voters == RemoveVoter(e.voters, user)
  {
    e.(votes := e.votes - 1, voters := RemoveVoter(e.voters, user))
  }

  /** Appending a well-formed entry under an id not yet queued keeps the queue well formed. */
  lemma AppendKeepsValid(q: seq<Entry>, e: Entry)
    requires ValidQueue(q) && EntryOk(e) && !HasId(q, e.id)
    ensures ValidQueue(q + [e])
  {
    var r := q + [e];
    forall i | 0 <= i < |r| ensures EntryOk(r[i]) {
      if i < |q| { assert r[i] == q[i]; }
    }
  }

  /** Replacing entry k by one with the same id keeps the queue well formed. */
  lemma ReplaceKeepsValid(q: seq<Entry>, k: nat, e: Entry)
    requires ValidQueue(q) && k < |q| && EntryOk(e) && e.id == q[k].id
    ensures ValidQueue(q[k := e])
  {
    var r := q[k := e];
    assert forall i :: 0 <= i < |r| ==> r[i].id == q[i].id;
  }

  /** Pulling a user who occurs once from a duplicate-free list shortens it by one. */
  lemma {:induction false} RemoveVoterOnce(voters: seq<UserId>, user: UserId)
    requires NoDuplicates(voters) && user in voters
    ensures |RemoveVoter(voters, user)| == |voters| - 1
    ensures NoDuplicates(RemoveVoter(voters, user))
  {
    if voters[0] == user {
      assert user !in voters[1..] by {
        forall i | 0 <= i < |voters[1..]| ensures voters[1..][i] != user {
          assert voters[1..][i] == voters[i + 1];
        }
      }
      RemoveVoterAbsent(voters[1..], user);
    } else {
      assert user in voters[1..] by { assert voters == [voters[0]] + voters[1..]; }
      RemoveVoterOnce(voters[1..], user);
      var r := RemoveVoter(voters, user);
      forall i, j | 0 <= i < j < |r| ensures r[i] != r[j] {
        if i == 0 {
          assert r[j] in RemoveVoter(voters[1..], user);
          assert r[j] in voters[1..];
          var m :| 0 <= m < |voters[1..]| && voters[1..][m] == r[j];
          assert voters[m + 1] == r[j];
        } else {
          assert r[i] == RemoveVoter(voters[1..], user)[i - 1];
        }
      }
    }
  }

  lemma {:induction false} RemoveVoterAbsent(voters: seq<UserId>, user: UserId)
    requires user !in voters
    ensures RemoveVoter(voters, user) == voters
  {
    if voters != [] {
      RemoveVoterAbsent(voters[1..], user);
      assert voters == [voters[0]] + voters[1..];
    }
  }

  /** An upvote by a user who has not voted keeps the count equal to the voters. */
  lemma UpvoteConsistent(e: Entry, user: UserId)
    requires VotesConsistent(e) && user !in e.voters
    ensures VotesConsistent(Upvoted(e, user)) && user in Upvoted(e, user).voters
  {
    var r := Upvoted(e, user);
    forall i, j | 0 <= i < j < |r.voters| ensures r.voters[i] != r.voters[j] {
      if j == |e.voters| { assert r.voters[i] == e.voters[i]; }
    }
  }

  /** A retraction by a user who has voted keeps the count equal to the voters. */
  lemma UnvoteConsistent(e: Entry, user: UserId)
    requires VotesConsistent(e) && user in e.voters
    ensures VotesConsistent(Unvoted(e, user)) && user !in Unvoted(e, user).voters
  {
    RemoveVoterOnce(e.voters, user);
  }
}
