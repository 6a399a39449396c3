/** Worked scenarios of the row loop over concrete row shapes. */
module TableScenarios {
  import opened TableExtractor

  /**
   * The first row linking to an address claims it even when its balance is "Unknown":
   * such an address never appears in the output, whatever later rows show.
   */
  lemma UnknownRowClaimsAddress(rows: seq<Row>, i: nat)
    requires i < |rows| && Link(rows[i]).Some? && HasUnknownBalance(rows[i])
    requires forall j :: 0 <= j < i && Link(rows[j]).Some? ==> Address(rows[j]) != Address(rows[i])
    ensures forall k :: 0 <= k < |TopTraders(rows)| ==> TopTraders(rows)[k].address != Address(rows[i])
  {
    var cs := Candidates(rows);
    TopTradersIsKeptRecords(rows);
    forall j | 0 <= j <= i
      ensures cs[j].Linked? <==> Link(rows[j]).Some?
      ensures cs[j].Linked? ==> cs[j].address == Address(rows[j])
      ensures j == i ==> cs[j].unknownBalance
    {
      CandidateFacts(rows, j);
    }
    UnknownClaimsAddress(cs, i);
  }

  /**
   * Three rows, the second repeating the first one's address and the third with an
   * "Unknown" balance: one record, ranked 1, from the first row.
   */
  lemma DuplicateAndUnknownScenario(r1: Row, r2: Row, r3: Row)
    requires Link(r1).Some? && Link(r2).Some? && Link(r3).Some?
    requires Address(r2) == Address(r1) && Address(r3) != Address(r1)
    requires !HasUnknownBalance(r1) && HasUnknownBalance(r3)
    ensures TopTraders([r1, r2, r3]) == [BuildRecord(r1, 0)]
    ensures TopTraders([r1, r2, r3])[0].rank == 1
  {
    var rows := [r1, r2, r3];
    assert rows[0] == r1 && rows[1] == r2 && rows[2] == r3;
    CandidateFacts(rows, 0);
    CandidateFacts(rows, 1);
    CandidateFacts(rows, 2);
    var cs := Candidates(rows);
    DuplicateAndUnknownCandidates(cs);
    assert TopTraders(rows) == ScanAll(cs, 3).traders;
    RecordFacts(r1, 0);
  }

  /**
   * A row with an "Unknown" balance followed by a valid one: the valid row keeps its
   * raw rank 2, so ranks are not renumbered over the kept rows.
   */
  lemma RankGapScenario(r1: Row, r2: Row)
    requires Link(r1).Some? && Link(r2).Some? && Address(r1) != Address(r2)
    requires HasUnknownBalance(r1) && !HasUnknownBalance(r2)
    ensures TopTraders([r1, r2]) == [BuildRecord(r2, 1)]
    ensures TopTraders([r1, r2])[0].rank == 2
  {
    var rows := [r1, r2];
    assert rows[0] == r1 && rows[1] == r2;
    CandidateFacts(rows, 0);
    CandidateFacts(rows, 1);
    var cs := Candidates(rows);
    RankGapCandidates(cs);
    assert TopTraders(rows) == ScanAll(cs, 2).traders;
    RecordFacts(r2, 1);
  }
}
