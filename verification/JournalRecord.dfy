/** One line of the journal, for any kind of event. */
module JournalRecord {
  const SCHEMA := "chat-objective-continuity-journal-v1"

  datatype Record<P> = Record(
    schema: string, seqNo: nat, eventId: string, actorRole: string, timestamp: string, prevHash: string,
    event: P, eventHash: string)

  function Zeros(n: nat): (s: string)
    ensures |s| == n && forall i | 0 <= i < n :: s[i] == '0'
  {
    seq(n, _ => '0')
  }

  /** The previous hash of the first record. */
  const ZERO_HASH: string := Zeros(64)

  /** The hash the next record must name as its predecessor. */
  function Head<P>(rs: seq<Record<P>>): string {
    if rs == [] then ZERO_HASH else rs[|rs| - 1].eventHash
  }

  function EventIds<P>(rs: seq<Record<P>>): set<string> {
    set i | 0 <= i < |rs| :: rs[i].eventId
  }

  predicate UniqueIds<P>(rs: seq<Record<P>>) {
    forall i, j :: 0 <= i < j < |rs| ==> rs[i].eventId != rs[j].eventId
  }
}
