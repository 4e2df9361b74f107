/** Participant and room identifiers.

  Both are UUIDs. The text syntax of UUIDs belongs to a library outside the repository, so it is a
  parameter: any partial parser and any printer, of which only `Faithful` is ever assumed. One id may
  have many accepted spellings (upper case, braces), and the printer produces one of them.
*/
module Ids {
  import opened Wrappers

  datatype ParticipantId = ParticipantId(uuid: nat)
  datatype RoomId = RoomId(uuid: nat)

  datatype UuidText = UuidText(parse: string -> Option<nat>, show: nat -> string) {
    /** Printing an id and parsing the text gives the id back. */
    ghost predicate Faithful() {
      forall u: nat :: parse(show(u)) == Some(u)
    }

    function ParseParticipant(text: string): Option<ParticipantId> {
      match parse(text)
      case Some(u) => Some(ParticipantId(u))
      case None => None
    }

    function ParseRoom(text: string): Option<RoomId> {
      match parse(text)
      case Some(u) => Some(RoomId(u))
      case None => None
    }

    function ShowParticipant(p: ParticipantId): string {
      show(p.uuid)
    }

    function ShowRoom(r: RoomId): string {
      show(r.uuid)
    }

    function ShowAll(ps: seq<ParticipantId>): (texts: seq<string>)
      ensures |texts| == |ps|
      ensures forall i :: 0 <= i < |ps| ==> texts[i] == ShowParticipant(ps[i])
    {
      seq(|ps|, i requires 0 <= i < |ps| => ShowParticipant(ps[i]))
    }
  }

  predicate NoDup<T(==)>(s: seq<T>) {
    forall i, j :: 0 <= i < j < |s| ==> s[i] != s[j]
  }

  /** `s` with every occurrence of `x` removed, order kept. */
  function Without<T(==, !new)>(s: seq<T>, x: T): (r: seq<T>)
    ensures |r| <= |s| && x !in r
    ensures forall y :: y != x ==> (y in r <==> y in s)
    ensures x !in s ==> r == s
  {
    if s == [] then []
    else
      var n := |s| - 1;
      if s[n] == x then Without(s[..n], x) else Without(s[..n], x) + [s[n]]
  }

  lemma {:induction false} WithoutNoDup<T(!new)>(s: seq<T>, x: T)
    requires NoDup(s)
    ensures NoDup(Without(s, x))
    ensures x in s ==> |Without(s, x)| == |s| - 1
  {
    if s == [] {
    } else {
      var n := |s| - 1;
      assert s == s[..n] + [s[n]];
      WithoutNoDup(s[..n], x);
      assert s[n] !in s[..n];
    }
  }

  /** Removing a freshly appended element restores the sequence. */
  lemma WithoutLast<T(!new)>(s: seq<T>, x: T)
    requires x !in s
    ensures Without(s + [x], x) == s
  {
    assert (s + [x])[..|s|] == s;
  }
}
