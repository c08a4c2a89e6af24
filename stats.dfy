/**
  The read-only dashboard figures: the basic counters, new patients per
  day, and the share of clinics per city.
*/
module Stats {
  import opened Text
  import opened Aggregation
  import opened Clinics

  /** A patient document; only the calendar day of `created_at` is read. */
  datatype Patient = Patient(createdDay: string)

  /** An appointment document; only its `date` string is read. */
  datatype Appointment = Appointment(date: string)

  datatype BasicStats = BasicStats(
    totalHospitals: nat,
    patientsLoggedIn: nat,
    totalPlaces: nat,
    todaysAppointments: nat)

  /** One entry of the patient analytics: `{day, newPatients}`. */
  datatype DayCount = DayCount(day: string, newPatients: nat)

  /**
    One entry of the hospital distribution: `{type, percentage}`, with the
    percentage kept as the exact fraction `count / divisor`.
  */
  datatype Share = Share(kind: string, count: nat, divisor: nat)

  // ---------------------------------------------------------------------
  // Basic stats

  /** The distinct `location` values of the clinics. */
  function Places(clinics: seq<Clinic>): (r: set<string>)
    ensures forall i :: 0 <= i < |clinics| ==> clinics[i].location in r
    ensures forall l :: l in r ==> exists i :: 0 <= i < |clinics| && clinics[i].location == l
  {
    set i | 0 <= i < |clinics| :: clinics[i].location
  }

  /** There are no more distinct locations than clinics, and none only when there are no clinics. */
  lemma {:induction false} PlacesBound(clinics: seq<Clinic>)
    ensures |Places(clinics)| <= |clinics|
    ensures |Places(clinics)| == 0 <==> clinics == []
  {
    if clinics != [] {
      var prefix := clinics[..|clinics| - 1];
      PlacesBound(prefix);
      assert Places(clinics) == Places(prefix) + {clinics[|clinics| - 1].location} by {
        forall l | l in Places(clinics) ensures l in Places(prefix) + {clinics[|clinics| - 1].location} {
          var i :| 0 <= i < |clinics| && clinics[i].location == l;
          if i < |clinics| - 1 {
            assert prefix[i] == clinics[i];
          }
        }
        forall l | l in Places(prefix) ensures l in Places(clinics) {
          var i :| 0 <= i < |prefix| && prefix[i].location == l;
          assert clinics[i] == prefix[i];
        }
      }
      assert clinics[|clinics| - 1].location in Places(clinics);
    }
  }

  /** The `date` field of every appointment, in order. */
  function Dates(appointments: seq<Appointment>): (r: seq<string>)
    ensures |r| == |appointments|
    ensures forall i :: 0 <= i < |r| ==> r[i] == appointments[i].date
  {
    seq(|appointments|, i requires 0 <= i < |appointments| => appointments[i].date)
  }

  /** The appointments dated `d`, counted by position, agree with CountOf on their dates. */
  lemma {:induction false} DatedCount(appointments: seq<Appointment>, d: string)
    ensures CountOf(Dates(appointments), d) ==
      |set i | 0 <= i < |appointments| && appointments[i].date == d|
  {
    if appointments != [] {
      var n := |appointments| - 1;
      var prefix := appointments[..n];
      DatedCount(prefix, d);
      assert Dates(appointments)[..n] == Dates(prefix);
      var before := set i | 0 <= i < |prefix| && prefix[i].date == d;
      var all := set i | 0 <= i < |appointments| && appointments[i].date == d;
      if appointments[n].date == d {
        assert all == before + {n};
      } else {
        assert all == before;
      }
    }
  }

  /**
    The four counters: clinics, patients, distinct clinic locations and
    appointments dated `today` (the server's local date as "YYYY-MM-DD").
  */
  function ComputeStats(clinics: seq<Clinic>, patients: seq<Patient>,
                        appointments: seq<Appointment>, today: string): (r: BasicStats)
    ensures r.totalHospitals == |clinics| && r.patientsLoggedIn == |patients|
    ensures r.totalPlaces == |set c | c in clinics :: c.location|
    ensures r.todaysAppointments == |set i | 0 <= i < |appointments| && appointments[i].date == today|
    ensures r.totalPlaces <= r.totalHospitals
    ensures r.totalPlaces == 0 <==> clinics == []
    ensures r.todaysAppointments <= |appointments|
    ensures r.todaysAppointments > 0 <==> exists i :: 0 <= i < |appointments| && appointments[i].date == today
  {
    PlacesBound(clinics);
    DatedCount(appointments, today);
    assert Places(clinics) == set c | c in clinics :: c.location;
    var dates := Dates(appointments);
    assert today in dates ==> exists i :: 0 <= i < |appointments| && appointments[i].date == today;
    BasicStats(|clinics|, |patients|, |Places(clinics)|, CountOf(dates, today))
  }

  // ---------------------------------------------------------------------
  // Patient analytics

  /** The creation day of every patient, in order. */
  function Days(patients: seq<Patient>): (r: seq<string>)
    ensures |r| == |patients|
    ensures forall i :: 0 <= i < |r| ==> r[i] == patients[i].createdDay
  {
    seq(|patients|, i requires 0 <= i < |patients| => patients[i].createdDay)
  }

  function ToDayCount(g: Group): DayCount {
    DayCount(g.key, g.count)
  }

  /** Group the patients by day, count each day, sort by day ascending. */
  function PatientAnalytics(patients: seq<Patient>): seq<DayCount> {
    var groups := SortByKey(GroupBy(Days(patients)));
    seq(|groups|, i requires 0 <= i < |groups| => ToDayCount(groups[i]))
  }

  function SumNewPatients(r: seq<DayCount>): nat {
    if r == [] then 0 else r[0].newPatients + SumNewPatients(r[1..])
  }

  lemma {:induction false} SumNewPatientsTotal(g: seq<Group>, r: seq<DayCount>)
    requires |r| == |g| && forall i :: 0 <= i < |r| ==> r[i] == ToDayCount(g[i])
    ensures SumNewPatients(r) == Total(g)
  {
    if r != [] {
      SumNewPatientsTotal(g[1..], r[1..]);
    }
  }

  /** Analytics entries are strictly ascending by day (hence one entry per day). */
  lemma AnalyticsAscending(patients: seq<Patient>)
    ensures forall i, j :: 0 <= i < j < |PatientAnalytics(patients)| ==>
      LexLess(PatientAnalytics(patients)[i].day, PatientAnalytics(patients)[j].day)
  {
    var grouped := GroupBy(Days(patients));
    GroupBySpec(Days(patients));
    SortByKeyAscending(grouped);
  }

  /** Each entry counts exactly the patients created on its day, and at least one. */
  lemma AnalyticsCounts(patients: seq<Patient>, i: nat)
    requires i < |PatientAnalytics(patients)|
    ensures var e := PatientAnalytics(patients)[i];
      e.newPatients == CountOf(Days(patients), e.day) >= 1
  {
    var days := Days(patients);
    var grouped := GroupBy(days);
    var sorted := SortByKey(grouped);
    assert sorted[i] in multiset(grouped);
    var k :| 0 <= k < |grouped| && grouped[k] == sorted[i];
    GroupCount(days, k);
  }

  /** A day has an entry exactly when some patient was created on it. */
  lemma AnalyticsDays(patients: seq<Patient>, d: string)
    ensures d in Days(patients) <==>
      exists i :: 0 <= i < |PatientAnalytics(patients)| && PatientAnalytics(patients)[i].day == d
  {
    var days := Days(patients);
    var sorted := SortByKey(GroupBy(days));
    var r := PatientAnalytics(patients);
    if d in days {
      assert d in Keys(sorted);
      var i := KeyAt(sorted, d);
      assert r[i].day == d;
    }
    if exists i :: 0 <= i < |r| && r[i].day == d {
      var i :| 0 <= i < |r| && r[i].day == d;
      KeyIn(sorted, i);
    }
  }

  /** The `newPatients` values add up to the number of patients. */
  lemma AnalyticsTotal(patients: seq<Patient>)
    ensures SumNewPatients(PatientAnalytics(patients)) == |patients|
  {
    SumNewPatientsTotal(SortByKey(GroupBy(Days(patients))), PatientAnalytics(patients));
  }

  // ---------------------------------------------------------------------
  // Hospital distribution

  /** The untrimmed city token of every clinic's location, in order. */
  function Cities(clinics: seq<Clinic>): (r: seq<string>)
    ensures |r| == |clinics|
    ensures forall i :: 0 <= i < |r| ==> r[i] == CityToken(clinics[i].location)
  {
    seq(|clinics|, i requires 0 <= i < |clinics| => CityToken(clinics[i].location))
  }

  /** The grouping and sort stages: groups keyed on the untrimmed token, largest first. */
  function CityGroups(clinics: seq<Clinic>): seq<Group> {
    SortByCountDesc(GroupBy(Cities(clinics)))
  }

  /** `sum(counts) or 1`. */
  function Divisor(groups: seq<Group>): (d: nat)
    ensures d >= 1 && (Total(groups) > 0 ==> d == Total(groups))
  {
    if Total(groups) == 0 then 1 else Total(groups)
  }

  /** One share per group, in order: the stripped key and the count over the divisor. */
  function Shares(groups: seq<Group>): seq<Share> {
    var d := Divisor(groups);
    seq(|groups|, i requires 0 <= i < |groups| => Share(Strip(groups[i].key), groups[i].count, d))
  }

  /** The city token is stripped only after grouping; the share is count over the divisor. */
  function HospitalDistribution(clinics: seq<Clinic>): seq<Share> {
    Shares(CityGroups(clinics))
  }

  function SumCounts(r: seq<Share>): nat {
    if r == [] then 0 else r[0].count + SumCounts(r[1..])
  }

  lemma {:induction false} SumCountsTotal(g: seq<Group>, r: seq<Share>, d: nat)
    requires |r| == |g| && forall i :: 0 <= i < |r| ==> r[i].count == g[i].count
    ensures SumCounts(r) == Total(g)
  {
    if r != [] {
      SumCountsTotal(g[1..], r[1..], d);
    }
  }

  /** Distribution groups have pairwise distinct (untrimmed) tokens, in non-increasing count order. */
  lemma CityGroupsOrdered(clinics: seq<Clinic>)
    ensures forall i, j :: 0 <= i < j < |CityGroups(clinics)| ==>
      CityGroups(clinics)[i].key != CityGroups(clinics)[j].key
      && CityGroups(clinics)[i].count >= CityGroups(clinics)[j].count
  {
    var grouped := GroupBy(Cities(clinics));
    GroupBySpec(Cities(clinics));
    SortByCountDescSpec(grouped);
    DistinctKeysPairwise(CityGroups(clinics));
  }

  /** Each group counts exactly the clinics whose untrimmed token is its key. */
  lemma CityGroupCount(clinics: seq<Clinic>, i: nat)
    requires i < |CityGroups(clinics)|
    ensures var g := CityGroups(clinics)[i];
      g.count == CountOf(Cities(clinics), g.key) >= 1
  {
    var cities := Cities(clinics);
    var grouped := GroupBy(cities);
    var g := CityGroups(clinics);
    assert g[i] in multiset(grouped);
    var k :| 0 <= k < |grouped| && grouped[k] == g[i];
    GroupCount(cities, k);
  }

  /** A token has a group exactly when some clinic's location yields it. */
  lemma CityGroupKeys(clinics: seq<Clinic>, t: string)
    ensures t in Cities(clinics) <==>
      exists i :: 0 <= i < |CityGroups(clinics)| && CityGroups(clinics)[i].key == t
  {
    var g := CityGroups(clinics);
    if t in Cities(clinics) {
      assert t in Keys(g);
      var i := KeyAt(g, t);
    }
    if exists i :: 0 <= i < |g| && g[i].key == t {
      var i :| 0 <= i < |g| && g[i].key == t;
      KeyIn(g, i);
    }
  }

  /**
    The shares are in non-increasing count order, their counts add up to the
    number of clinics, and all use the divisor max(number of clinics, 1).
  */
  lemma HospitalDistributionTotals(clinics: seq<Clinic>)
    ensures forall i, j :: 0 <= i < j < |HospitalDistribution(clinics)| ==>
      HospitalDistribution(clinics)[i].count >= HospitalDistribution(clinics)[j].count
    ensures SumCounts(HospitalDistribution(clinics)) == |clinics|
    ensures forall i :: 0 <= i < |HospitalDistribution(clinics)| ==>
      HospitalDistribution(clinics)[i].divisor == if |clinics| == 0 then 1 else |clinics|
  {
    var g := CityGroups(clinics);
    var r := HospitalDistribution(clinics);
    assert Total(g) == |Cities(clinics)| == |clinics|;
    CityGroupsOrdered(clinics);
    forall i, j | 0 <= i < j < |r| ensures r[i].count >= r[j].count {
      assert r[i].count == g[i].count && r[j].count == g[j].count;
    }
    SumCountsTotal(g, r, Divisor(g));
  }

  /** Every reported type is already stripped; there is a share iff there is a clinic. */
  lemma HospitalDistributionTypes(clinics: seq<Clinic>)
    ensures forall i :: 0 <= i < |HospitalDistribution(clinics)| ==>
      Strip(HospitalDistribution(clinics)[i].kind) == HospitalDistribution(clinics)[i].kind
    ensures clinics == [] <==> HospitalDistribution(clinics) == []
  {
    var g := CityGroups(clinics);
    var r := HospitalDistribution(clinics);
    forall i | 0 <= i < |r| ensures Strip(r[i].kind) == r[i].kind {
      StripIdempotent(g[i].key);
    }
    if clinics != [] {
      CityGroupKeys(clinics, Cities(clinics)[0]);
    }
  }
}
