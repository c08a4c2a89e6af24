/**
  Concrete cases of the statistics rules, checked against the definitions:
  three clinics in Lagos and Abuja, three patients created over two days,
  and two clinics whose locations differ only by a leading space, which
  form two distribution groups reporting the same type.
*/
module WorkedCases {
  import opened Text
  import opened Aggregation
  import opened Clinics
  import opened Stats

  lemma LagosTokens()
    ensures CityToken("Lagos, NG") == "Lagos" && CityToken(" Lagos, NG") == " Lagos"
  {
    CityTokenBeforeComma("Lagos", " NG");
    assert "Lagos" + [','] + " NG" == "Lagos, NG";
    CityTokenBeforeComma(" Lagos", " NG");
    assert " Lagos" + [','] + " NG" == " Lagos, NG";
  }

  lemma LagosStripped()
    ensures Strip("Lagos") == "Lagos" && Strip(" Lagos") == "Lagos"
  {
    assert LeadingSpaces("Lagos") == 0;
    assert TrailingSpaces("Lagos") == 0;
    assert LeadingSpaces(" Lagos") == 1;
    assert TrailingSpaces(" Lagos"[1..]) == 0;
  }

  /**
    Grouping happens before stripping: locations "Lagos, NG" and " Lagos, NG"
    fall in two groups that are both reported with type "Lagos".
  */
  lemma SameTypeTwoGroups(clinics: seq<Clinic>)
    requires |clinics| == 2
    requires clinics[0].location == "Lagos, NG" && clinics[1].location == " Lagos, NG"
    ensures |HospitalDistribution(clinics)| == 2
    ensures HospitalDistribution(clinics)[0].kind == HospitalDistribution(clinics)[1].kind == "Lagos"
  {
    LagosCityGroups(clinics);
    TwoGroupShares(Group("Lagos", 1), Group(" Lagos", 1));
    LagosStripped();
  }

  lemma LagosCityGroups(clinics: seq<Clinic>)
    requires |clinics| == 2
    requires clinics[0].location == "Lagos, NG" && clinics[1].location == " Lagos, NG"
    ensures CityGroups(clinics) == [Group("Lagos", 1), Group(" Lagos", 1)]
  {
    LagosCities(clinics);
    LagosGroups();
    LagosSorted();
  }

  lemma LagosSorted()
    ensures SortByCountDesc([Group("Lagos", 1), Group(" Lagos", 1)]) == [Group("Lagos", 1), Group(" Lagos", 1)]
  {
  }

  lemma LagosCities(clinics: seq<Clinic>)
    requires |clinics| == 2
    requires clinics[0].location == "Lagos, NG" && clinics[1].location == " Lagos, NG"
    ensures Cities(clinics) == ["Lagos", " Lagos"]
  {
    CitiesOfTwo(clinics);
    LagosTokens();
  }

  lemma CitiesOfTwo(clinics: seq<Clinic>)
    requires |clinics| == 2
    ensures Cities(clinics) == [CityToken(clinics[0].location), CityToken(clinics[1].location)]
  {
  }

  lemma LagosGroups()
    ensures GroupBy(["Lagos", " Lagos"]) == [Group("Lagos", 1), Group(" Lagos", 1)]
  {
    var t0, t1 := "Lagos", " Lagos";
    assert [t0, t1][..1] == [t0];
    assert [t0][..0] == [];
    assert GroupBy([t0]) == [Group(t0, 1)];
    assert [Group(t0, 1)][1..] == [];
    assert Add([Group(t0, 1)], t1) == [Group(t0, 1), Group(t1, 1)];
  }

  lemma LagosAbujaTokens()
    ensures CityToken("Abuja, NG") == "Abuja"
  {
    CityTokenBeforeComma("Abuja", " NG");
    assert "Abuja" + [','] + " NG" == "Abuja, NG";
  }

  lemma LagosAbujaGroups()
    ensures GroupBy(["Lagos", "Lagos", "Abuja"]) == [Group("Lagos", 2), Group("Abuja", 1)]
  {
    var s := ["Lagos", "Lagos", "Abuja"];
    assert s[..2] == ["Lagos", "Lagos"];
    assert s[..2][..1] == ["Lagos"];
    assert s[..2][..1][..0] == [];
    assert GroupBy(["Lagos"]) == [Group("Lagos", 1)];
    assert [Group("Lagos", 1)][1..] == [];
    assert GroupBy(["Lagos", "Lagos"]) == [Group("Lagos", 2)];
    assert [Group("Lagos", 2)][1..] == [];
    assert Add([Group("Lagos", 2)], "Abuja") == [Group("Lagos", 2), Group("Abuja", 1)];
  }

  lemma LagosAbujaCities(clinics: seq<Clinic>)
    requires |clinics| == 3
    requires clinics[0].location == clinics[1].location == "Lagos, NG"
    requires clinics[2].location == "Abuja, NG"
    ensures Cities(clinics) == ["Lagos", "Lagos", "Abuja"]
  {
    CitiesOfThree(clinics);
    LagosTokens();
    LagosAbujaTokens();
  }

  lemma CitiesOfThree(clinics: seq<Clinic>)
    requires |clinics| == 3
    ensures Cities(clinics) ==
      [CityToken(clinics[0].location), CityToken(clinics[1].location), CityToken(clinics[2].location)]
  {
  }

  lemma AbujaStripped()
    ensures Strip("Abuja") == "Abuja"
  {
    assert LeadingSpaces("Abuja") == 0;
    assert TrailingSpaces("Abuja") == 0;
  }

  lemma LagosAbujaSorted()
    ensures SortByCountDesc([Group("Lagos", 2), Group("Abuja", 1)]) == [Group("Lagos", 2), Group("Abuja", 1)]
  {
  }

  lemma LagosAbujaCityGroups(clinics: seq<Clinic>)
    requires |clinics| == 3
    requires clinics[0].location == clinics[1].location == "Lagos, NG"
    requires clinics[2].location == "Abuja, NG"
    ensures CityGroups(clinics) == [Group("Lagos", 2), Group("Abuja", 1)]
  {
    LagosAbujaCities(clinics);
    LagosAbujaGroups();
    LagosAbujaSorted();
  }

  /** Three clinics in "Lagos, NG", "Lagos, NG" and "Abuja, NG": Lagos 2 of 3, then Abuja 1 of 3. */
  lemma LagosAbujaDistribution(clinics: seq<Clinic>)
    requires |clinics| == 3
    requires clinics[0].location == clinics[1].location == "Lagos, NG"
    requires clinics[2].location == "Abuja, NG"
    ensures HospitalDistribution(clinics) == [Share("Lagos", 2, 3), Share("Abuja", 1, 3)]
  {
    LagosAbujaCityGroups(clinics);
    LagosAbujaShares(clinics);
  }

  lemma LagosAbujaShares(clinics: seq<Clinic>)
    requires CityGroups(clinics) == [Group("Lagos", 2), Group("Abuja", 1)]
    ensures HospitalDistribution(clinics) == [Share("Lagos", 2, 3), Share("Abuja", 1, 3)]
  {
    TwoGroupShares(Group("Lagos", 2), Group("Abuja", 1));
    LagosStripped();
    AbujaStripped();
  }

  /** Two groups give two shares over the sum of their counts. */
  lemma TwoGroupShares(a: Group, b: Group)
    requires a.count >= 1
    ensures Shares([a, b]) ==
      [Share(Strip(a.key), a.count, a.count + b.count), Share(Strip(b.key), b.count, a.count + b.count)]
  {
    var g := [a, b];
    assert g[1..] == [b] && [b][1..] == [];
    assert Total([b]) == b.count;
    assert Total(g) == a.count + b.count;
  }

  lemma TwoDaysGroups()
    ensures GroupBy(["2024-01-01", "2024-01-01", "2024-01-02"]) == [Group("2024-01-01", 2), Group("2024-01-02", 1)]
  {
    var a, b := "2024-01-01", "2024-01-02";
    var s := [a, a, b];
    assert s[..2] == [a, a];
    assert s[..2][..1] == [a];
    assert s[..2][..1][..0] == [];
    assert GroupBy([a]) == [Group(a, 1)];
    assert [Group(a, 1)][1..] == [];
    assert GroupBy([a, a]) == [Group(a, 2)];
    assert [Group(a, 2)][1..] == [];
    assert a != b;
    assert Add([Group(a, 2)], b) == [Group(a, 2), Group(b, 1)];
  }


  lemma TwoDaysOrdered()
    ensures LexLess("2024-01-01", "2024-01-02")
  {
    LexCommonPrefix("2024-01-0", "1", "2");
    assert "2024-01-0" + "1" == "2024-01-01";
    assert "2024-01-0" + "2" == "2024-01-02";
  }

  lemma TwoDaysSorted()
    ensures SortByKey([Group("2024-01-01", 2), Group("2024-01-02", 1)]) == [Group("2024-01-01", 2), Group("2024-01-02", 1)]
  {
    var a, b := "2024-01-01", "2024-01-02";
    TwoDaysOrdered();
    LexAsymmetric(a, b);
    assert [Group(a, 2), Group(b, 1)][1..] == [Group(b, 1)];
    assert SortByKey([Group(b, 1)]) == [Group(b, 1)];
  }

  lemma TwoDaysDays(patients: seq<Patient>)
    requires |patients| == 3
    requires patients[0].createdDay == patients[1].createdDay == "2024-01-01"
    requires patients[2].createdDay == "2024-01-02"
    ensures Days(patients) == ["2024-01-01", "2024-01-01", "2024-01-02"]
  {
    var d := Days(patients);
    assert d[0] == "2024-01-01" && d[1] == "2024-01-01" && d[2] == "2024-01-02";
  }

  /** Patients created on 2024-01-01 (twice) and 2024-01-02: two entries, in day order. */
  lemma TwoDaysAnalytics(patients: seq<Patient>)
    requires |patients| == 3
    requires patients[0].createdDay == patients[1].createdDay == "2024-01-01"
    requires patients[2].createdDay == "2024-01-02"
    ensures PatientAnalytics(patients) == [DayCount("2024-01-01", 2), DayCount("2024-01-02", 1)]
  {
    var a, b := "2024-01-01", "2024-01-02";
    TwoDaysDays(patients);
    TwoDaysGroups();
    TwoDaysSorted();
    var r := PatientAnalytics(patients);
    assert |r| == 2;
    assert r[0] == DayCount(a, 2);
    assert r[1] == DayCount(b, 1);
  }
}
