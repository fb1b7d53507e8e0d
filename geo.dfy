/**
 * The administrative-area table of Bangladesh used by the address pickers: divisions,
 * their districts, and each district's upazilas, with the three lookup helpers.
 * Objects are insertion-ordered, so each level is an ordered list of keyed entries.
 */
module Geo {
  import opened Common

  type Districts = seq<(string, seq<string>)>
  type Divisions = seq<(string, Districts)>

  const BdGeo: Divisions := [
    ("Dhaka", [
      ("Dhaka", ["Dhanmondi", "Gulshan", "Mirpur", "Tejgaon", "Uttara"]),
      ("Gazipur", ["Gazipur Sadar", "Kaliakair", "Kapasia", "Sreepur"]),
      ("Narayanganj", ["Araihazar", "Bandar", "Narayanganj Sadar", "Rupganj", "Sonargaon"])]),
    ("Chattogram", [
      ("Chattogram", ["Kotwali", "Pahartali", "Panchlaish", "Chandgaon"]),
      ("Cox's Bazar", ["Cox's Bazar Sadar", "Teknaf", "Ukhiya", "Ramu"])]),
    ("Rajshahi", [
      ("Rajshahi", ["Boalia", "Rajpara", "Motihar", "Shah Makhdum"]),
      ("Pabna", ["Pabna Sadar", "Ishwardi", "Bera", "Atgharia"])]),
    ("Khulna", [
      ("Khulna", ["Khalishpur", "Sonadanga", "Koyra", "Dacope"]),
      ("Jessore", ["Jessore Sadar", "Jhikargacha", "Benapole", "Manirampur"])]),
    ("Barishal", [
      ("Barishal", ["Barishal Sadar", "Babuganj", "Bakerganj", "Mehendiganj"])]),
    ("Sylhet", [
      ("Sylhet", ["Sylhet Sadar", "Beanibazar", "Golapganj", "Zakiganj"])]),
    ("Rangpur", [
      ("Rangpur", ["Rangpur Sadar", "Gangachara", "Badarganj", "Kaunia"])]),
    ("Mymensingh", [
      ("Mymensingh", ["Mymensingh Sadar", "Gafargaon", "Ishwarganj", "Trishal"])])
  ]

  /** `Object.keys`: the keys of an ordered record. */
  function KeysOf<V>(entries: seq<(string, V)>): (r: seq<string>)
    ensures |r| == |entries| && forall i :: 0 <= i < |entries| ==> r[i] == entries[i].0
  {
    seq(|entries|, i requires 0 <= i < |entries| => entries[i].0)
  }

  /** `record[key]`: the value stored under `key`, when there is one. */
  function Get<V>(entries: seq<(string, V)>, key: string): (r: Option<V>)
    ensures r.None? <==> key !in KeysOf(entries)
    ensures r.Some? ==> exists i :: 0 <= i < |entries| && entries[i] == (key, r.value)
    decreases |entries|
  {
    if entries == [] then None
    else if entries[0].0 == key then Some(entries[0].1)
    else
      var r := Get(entries[1..], key);
      assert KeysOf(entries) == [entries[0].0] + KeysOf(entries[1..]);
      assert r.Some? ==> exists i :: 1 <= i < |entries| && entries[i] == (key, r.value) by {
        if r.Some? {
          var j :| 0 <= j < |entries[1..]| && entries[1..][j] == (key, r.value);
          assert entries[j + 1] == (key, r.value);
        }
      }
      r
  }

  /** With distinct keys, the value under a key is the one stored next to it. */
  lemma {:induction false} GetDistinct<V>(entries: seq<(string, V)>, i: int)
    requires NoDuplicates(KeysOf(entries)) && 0 <= i < |entries|
    ensures Get(entries, entries[i].0) == Some(entries[i].1)
    decreases |entries|
  {
    if i > 0 {
      assert KeysOf(entries)[0] != KeysOf(entries)[i];
      assert KeysOf(entries[1..]) == KeysOf(entries)[1..];
      GetDistinct(entries[1..], i - 1);
    }
  }

  /** `getDivisions()`. */
  function GetDivisions(): (r: seq<string>)
    ensures r == ["Dhaka", "Chattogram", "Rajshahi", "Khulna", "Barishal", "Sylhet", "Rangpur", "Mymensingh"]
  {
    KeysOf(BdGeo)
  }

  /** `getDistricts(division)`: nothing for a missing, empty or unknown division. */
  function GetDistricts(division: Option<string>): (r: seq<string>)
    ensures !Truthy(division) ==> r == []
    ensures Truthy(division) && division.value !in GetDivisions() ==> r == []
    ensures Truthy(division) && Get(BdGeo, division.value).Some? ==> r == KeysOf(Get(BdGeo, division.value).value)
  {
    if !Truthy(division) then []
    else match Get(BdGeo, division.value)
      case None => []
      case Some(districts) => KeysOf(districts)
  }

  /** `getUpazilas(division, district)`: nothing when either is missing or empty, or the
      pair is not in the table. */
  function GetUpazilas(division: Option<string>, district: Option<string>): (r: seq<string>)
    ensures !Truthy(division) || !Truthy(district) ==> r == []
    ensures Truthy(division) && division.value !in GetDivisions() ==> r == []
    ensures Truthy(division) && Truthy(district) && Get(BdGeo, division.value).Some? ==>
              var districts := Get(BdGeo, division.value).value;
              r == (if Get(districts, district.value).Some? then Get(districts, district.value).value else [])
  {
    if !Truthy(division) || !Truthy(district) then []
    else match Get(BdGeo, division.value)
      case None => []
      case Some(districts) =>
        match Get(districts, district.value)
        case None => []
        case Some(upazilas) => upazilas
  }

  /** No division name repeats, and no district name repeats within a division. */
  lemma KeysDistinct()
    ensures NoDuplicates(KeysOf(BdGeo))
    ensures forall i :: 0 <= i < |BdGeo| ==> NoDuplicates(KeysOf(BdGeo[i].1))
  {
    assert GetDivisions() == KeysOf(BdGeo);
  }

  /** Every district in the table has a non-empty name and a non-empty upazila list. */
  lemma DistrictEntriesNonEmpty()
    ensures forall a, b :: 0 <= a < |BdGeo| && 0 <= b < |BdGeo[a].1| ==> BdGeo[a].1[b].0 != "" && BdGeo[a].1[b].1 != []
  {
  }

  /** Every district a division lists has at least one upazila to pick from. */
  lemma EveryDistrictHasUpazilas(division: string, district: string)
    requires district in GetDistricts(Some(division))
    ensures GetUpazilas(Some(division), Some(district)) != []
  {
    assert Truthy(Some(division)) && Get(BdGeo, division).Some?;
    var districts := Get(BdGeo, division).value;
    assert district in KeysOf(districts);
    var i :| 0 <= i < |BdGeo| && BdGeo[i] == (division, districts);
    var j :| 0 <= j < |districts| && districts[j].0 == district;
    assert Get(districts, district) == Some(districts[j].1) by {
      KeysDistinct();
      GetDistinct(districts, j);
    }
    assert district != "" && districts[j].1 != [] by {
      DistrictEntriesNonEmpty();
      assert districts[j] == BdGeo[i].1[j];
    }
  }
}
