/** What addAPs registers with the multi-network join mechanism. */
module RosterBuilder {
  import opened Profiles

  /** One registered join candidate: an `addAP(ssid, password)` call. */
  datatype Candidate = Candidate(ssid: string, password: string)

  /** The candidates of a document, one per top-level member, in document order. */
  function Roster(doc: Document): (r: seq<Candidate>)
    ensures |r| == |doc|
  {
    if doc == [] then []
    else [Candidate(doc[0].key, doc[0].profile.wifiPassword)] + Roster(doc[1..])
  }

  /** The i-th candidate carries the i-th member's key and `wifi_password`. */
  lemma {:induction false} RosterAt(doc: Document, i: nat)
    requires i < |doc|
    ensures Roster(doc)[i] == Candidate(doc[i].key, doc[i].profile.wifiPassword)
  {
    if i > 0 {
      RosterAt(doc[1..], i - 1);
    }
  }

  /** The roster of a concatenation is the concatenation of the rosters. */
  lemma {:induction false} RosterAppend(a: Document, b: Document)
    ensures Roster(a + b) == Roster(a) + Roster(b)
  {
    if a != [] {
      assert (a + b)[0] == a[0] && (a + b)[1..] == a[1..] + b;
      RosterAppend(a[1..], b);
    } else {
      assert a + b == b;
    }
  }

  /** Every candidate names a member of the document and carries that member's password. */
  lemma {:induction false} RosterFromDocument(doc: Document, c: Candidate)
    requires c in Roster(doc)
    ensures exists i :: 0 <= i < |doc| && doc[i].key == c.ssid && doc[i].profile.wifiPassword == c.password
  {
    var i :| 0 <= i < |Roster(doc)| && Roster(doc)[i] == c;
    RosterAt(doc, i);
  }
}
