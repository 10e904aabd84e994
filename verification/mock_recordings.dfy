/** The generated recordings list of the fixtures. */
module MockRecordings {
  import opened Seqs
  import opened Text
  import opened Clock
  import opened Domain
  import opened TableFilter

  const Owners: seq<Owner> := [
    Owner("1", "Sarah Johnson", None),
    Owner("2", "Mike Chen", None),
    Owner("3", "Emily Davis", None),
    Owner("4", "Alex Thompson", None),
    Owner("5", "Jordan Lee", None)
  ]

  /** The fields a generated record takes from its base. */
  datatype Base = Base(name: string, callType: CallType, status: Status)

  const BaseRecordings: seq<Base> := [
    Base("Enterprise Demo - Acme Corp", Inbound, Completed),
    Base("Discovery Call - TechStart Inc", Inbound, Completed),
    Base("Pricing Discussion - Global Solutions", Inbound, Processing),
    Base("Follow-up Call - Innovate Labs", FollowUp, Completed),
    Base("Initial Outreach - DataFlow", Outbound, Error),
    Base("Product Demo - CloudSync", Inbound, Completed),
    Base("Negotiation Call - Apex Systems", Inbound, Completed),
    Base("Onboarding Review - StartupXYZ", Inbound, Completed),
    Base("Quarterly Review - MegaCorp", Inbound, Processing),
    Base("Cold Outreach - NewVenture", Outbound, Completed)
  ]

  const Durations: seq<string> := ["12:20", "18:55", "25:30", "32:45", "45:12", "28:00", "15:45", "38:22", "22:10", "55:00"]

  /** The generator produces this many records. */
  const RecordCount: nat := 48

  /** The name of record `i`: the base name, with ` #<round>` from the
      second round of ten on. */
  function NameOf(i: nat): string
  {
    var base := BaseRecordings[i % 10];
    if i < 10 then base.name else base.name + " #" + NatToString(i / 10 + 1)
  }

  /** Record `i` of the generator; `today` is the current day number. */
  function GeneratedRecording(i: nat, today: int): Recording
  {
    var base := BaseRecordings[i % 10];
    Recording(NatToString(i + 1), NameOf(i), today - i, base.status, Durations[i % 10], Owners[i % 5], Some(base.callType))
  }

  /** `generateMockRecordings()` on day `today`. */
  function MockRecordings(today: int): (rs: seq<Recording>)
    ensures |rs| == RecordCount
    ensures forall i :: 0 <= i < |rs| ==> rs[i] == GeneratedRecording(i, today)
  {
    seq(RecordCount, i requires 0 <= i < RecordCount => GeneratedRecording(i, today))
  }

  /** Record `i` carries the id `i + 1`, which reads back as that number, so
      the ids are pairwise distinct. */
  lemma GeneratedIds(today: int, i: nat, j: nat)
    requires i < RecordCount && j < RecordCount
    ensures AllDigits(MockRecordings(today)[i].id) && ParseNat(MockRecordings(today)[i].id) == i + 1
    ensures MockRecordings(today)[i].id == MockRecordings(today)[j].id <==> i == j
  {
    RecordId(today, i);
    RecordId(today, j);
    ParseNatToString(i + 1);
    NatToStringInjective(i + 1, j + 1);
  }

  lemma RecordId(today: int, i: nat)
    requires i < RecordCount
    ensures MockRecordings(today)[i].id == NatToString(i + 1)
  {
  }

  /** The first letter and the length of each base name. Only the two
      'P' names share a first letter, and their lengths differ by thirteen. */
  lemma BaseShape(k: nat)
    requires k < 10
    ensures |BaseRecordings[k].name| == [27, 30, 37, 30, 27, 24, 31, 30, 27, 26][k]
    ensures BaseRecordings[k].name[0] == "EDPFIPNOQC"[k]
  {
  }

  /** Only bases 2 and 5 share a first letter. */
  lemma SharedInitial(x: nat, y: nat)
    requires x < 10 && y < 10 && x != y
    requires "EDPFIPNOQC"[x] == "EDPFIPNOQC"[y]
    ensures (x == 2 && y == 5) || (x == 5 && y == 2)
  {
  }

  /** A generated name is its base name, followed from the second round on
      by a space, '#' and one digit. */
  lemma NameShape(i: nat)
    requires i < RecordCount
    ensures BaseRecordings[i % 10].name <= NameOf(i)
    ensures |NameOf(i)| == |BaseRecordings[i % 10].name| + (if i < 10 then 0 else 3)
  {
    if i >= 10 {
      assert NatToString(i / 10 + 1) == [DigitChar(i / 10 + 1)];
    }
  }

  /** Records on different bases differ in their first letter or, for the
      two 'P' bases, in length. */
  lemma DifferentBasesDifferentNames(i: nat, j: nat)
    requires i < RecordCount && j < RecordCount && i % 10 != j % 10
    ensures NameOf(i) != NameOf(j)
  {
    var x, y := i % 10, j % 10;
    if NameOf(i) == NameOf(j) {
      NameShape(i);
      NameShape(j);
      BaseShape(x);
      BaseShape(y);
      assert BaseRecordings[x].name[0] == BaseRecordings[y].name[0] by {
        assert NameOf(i)[0] == BaseRecordings[x].name[0];
        assert NameOf(j)[0] == BaseRecordings[y].name[0];
      }
      SharedInitial(x, y);
      assert false;
    }
  }

  /** From the second round on, a name ends in the round's digit. */
  lemma RoundDigit(i: nat)
    requires 10 <= i < RecordCount
    ensures |NameOf(i)| == |BaseRecordings[i % 10].name| + 3
    ensures NameOf(i)[|NameOf(i)| - 1] == DigitChar(i / 10 + 1)
  {
    assert NatToString(i / 10 + 1) == [DigitChar(i / 10 + 1)];
  }

  /** Two numbers with the same last decimal digit differ in the rest. */
  lemma DistinctRounds(i: nat, j: nat)
    requires i % 10 == j % 10 && i != j
    ensures i / 10 != j / 10
  {
  }

  /** Two later-round records on one base end in different digits. */
  lemma LaterRoundsDiffer(i: nat, j: nat)
    requires 10 <= i < RecordCount && 10 <= j < RecordCount && i / 10 != j / 10
    ensures NameOf(i) != NameOf(j)
  {
    RoundDigit(i);
    RoundDigit(j);
    var a, b := NameOf(i), NameOf(j);
    if a == b {
      assert a[|a| - 1] == b[|b| - 1];
      DigitCharInjective(i / 10 + 1, j / 10 + 1);
    }
  }

  lemma DigitCharInjective(a: nat, b: nat)
    requires a < 10 && b < 10 && DigitChar(a) == DigitChar(b)
    ensures a == b
  {
  }

  /** A first-round name is shorter than a later-round name on its base. */
  lemma FirstRoundIsShorter(i: nat, j: nat)
    requires i < 10 <= j < RecordCount && i % 10 == j % 10
    ensures |NameOf(i)| < |NameOf(j)|
  {
    NameShape(i);
    RoundDigit(j);
  }

  /** Records on the same base differ in their round suffix. */
  lemma SameBaseDifferentNames(i: nat, j: nat)
    requires i < RecordCount && j < RecordCount && i % 10 == j % 10 && i != j
    ensures NameOf(i) != NameOf(j)
  {
    DistinctRounds(i, j);
    if i >= 10 && j >= 10 {
      LaterRoundsDiffer(i, j);
    } else if i < 10 {
      FirstRoundIsShorter(i, j);
    } else {
      FirstRoundIsShorter(j, i);
    }
  }

  /** The round suffix makes every generated name distinct. */
  lemma GeneratedNamesDistinct(today: int, i: nat, j: nat)
    requires i < RecordCount && j < RecordCount && i != j
    ensures MockRecordings(today)[i].name != MockRecordings(today)[j].name
  {
    if i % 10 != j % 10 {
      DifferentBasesDifferentNames(i, j);
    } else {
      SameBaseDifferentNames(i, j);
    }
  }

  /** Every base field, duration and owner is the one of record `i` modulo
      ten (modulo five for the owner). */
  lemma GeneratedCycles(today: int, i: nat)
    requires i < RecordCount
    ensures var r := MockRecordings(today)[i];
      && r.status == BaseRecordings[i % 10].status
      && r.callType == Some(BaseRecordings[i % 10].callType)
      && r.duration == Durations[i % 10]
      && r.owner == Owners[i % 5]
      && (i < 10 ==> r.name == BaseRecordings[i].name)
  {
    if i < 10 {
      assert i % 10 == i;
    }
  }

  /** The seconds of each fixture duration. */
  const DurationSeconds: seq<nat> := [740, 1135, 1530, 1965, 2712, 1680, 945, 2302, 1330, 3300]

  /** Every fixture duration is one the table parser accepts, with the
      listed number of seconds. */
  lemma DurationsParse(k: nat)
    requires k < 10
    ensures ParseDuration(Durations[k]) == Some(DurationSeconds[k])
  {
    if k == 0 { DurationLiteral(Durations[0], "12", "20", 740); }
    else if k == 1 { DurationLiteral(Durations[1], "18", "55", 1135); }
    else if k == 2 { DurationLiteral(Durations[2], "25", "30", 1530); }
    else if k == 3 { DurationLiteral(Durations[3], "32", "45", 1965); }
    else if k == 4 { DurationLiteral(Durations[4], "45", "12", 2712); }
    else if k == 5 { DurationLiteral(Durations[5], "28", "00", 1680); }
    else if k == 6 { DurationLiteral(Durations[6], "15", "45", 945); }
    else if k == 7 { DurationLiteral(Durations[7], "38", "22", 2302); }
    else if k == 8 { DurationLiteral(Durations[8], "22", "10", 1330); }
    else { DurationLiteral(Durations[9], "55", "00", 3300); }
  }

  /** Record `i` is dated `i` days before today, so the list runs from the
      newest day to the oldest. */
  lemma GeneratedDatesDescend(today: int, i: nat, j: nat)
    requires i < j < RecordCount
    ensures MockRecordings(today)[i].date == today - i
    ensures MockRecordings(today)[i].date > MockRecordings(today)[j].date
  {
  }

  /** The "Last 7 Days" bucket keeps exactly the first eight records (today
      and the seven days before). */
  lemma LastSevenDaysIsFirstEight(today: int, i: nat)
    requires i < RecordCount
    ensures Matches(Filters("", "Last 7 Days", "", ""), today, MockRecordings(today)[i]) <==> i <= 7
  {
  }

  /** Every generated record has a call type, so the search as written never
      fails on the fixture. */
  lemma FixtureSearchNeverFails(f: Filters, today: int)
    ensures FilterAsWritten(MockRecordings(today), f, today) == Some(FilterRecordings(MockRecordings(today), f, today))
  {
    var rs := MockRecordings(today);
    forall x | x in rs ensures x.callType.Some? {
      var i :| 0 <= i < |rs| && rs[i] == x;
    }
  }
}
