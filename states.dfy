/** The reference list of Indian states and union territories that every
    map is drawn over, and the renaming of location spellings onto it. */
module States {
  import opened Seqs

  /** The reference states, in the order the maps list them. */
  const AllStates: seq<string> := [
    "Andhra Pradesh", "Arunachal Pradesh", "Assam", "Bihar", "Chhattisgarh", "Goa",
    "Gujarat", "Haryana", "Himachal Pradesh", "Jharkhand", "Karnataka", "Kerala",
    "Madhya Pradesh", "Maharashtra", "Manipur", "Meghalaya", "Mizoram", "Nagaland",
    "Orissa", "Punjab", "Rajasthan", "Sikkim", "Tamil Nadu", "Telangana", "Tripura",
    "Uttar Pradesh", "Uttaranchal", "West Bengal", "Jammu and Kashmir", "Ladakh",
    "Andaman and Nicobar Islands", "Chandigarh", "Dadra and Nagar Haveli and Daman and Diu",
    "Lakshadweep", "Delhi", "Puducherry"
  ]

  /** The pseudo-location of remote jobs, which the per-state maps leave out. */
  const Remote: string := "Remote"

  /** The spellings in the data that the map's boundaries name differently. */
  const Aliases: set<string> := {"Jammu & Kashmir", "Odisha", "Uttarakhand"}

  /** `Series.replace` with the three renamings; every other location is kept. */
  function NormalizeLocation(loc: string): (r: string)
    ensures loc == "Jammu & Kashmir" ==> r == "Jammu and Kashmir"
    ensures loc == "Odisha" ==> r == "Orissa"
    ensures loc == "Uttarakhand" ==> r == "Uttaranchal"
    ensures loc !in Aliases ==> r == loc
    ensures loc in Aliases ==> r in AllStates
    ensures r !in Aliases
  {
    if loc == "Jammu & Kashmir" then "Jammu and Kashmir"
    else if loc == "Odisha" then "Orissa"
    else if loc == "Uttarakhand" then "Uttaranchal"
    else loc
  }

  /** Normalising a normalised location changes nothing. */
  lemma NormalizeIdempotent(loc: string)
    ensures NormalizeLocation(NormalizeLocation(loc)) == NormalizeLocation(loc)
  {
  }

  /** None of the three unnormalised spellings is a reference state. */
  lemma NoAliasIsReference()
    ensures forall s :: s in AllStates ==> s != "Jammu & Kashmir" && s != "Odisha" && s != "Uttarakhand"
  {
  }

  /** The reference list holds no "Remote" and no unnormalised spelling, so
      normalisation leaves each of its names as it is. */
  lemma ReferenceStatesNormal()
    ensures Remote !in AllStates
    ensures forall s :: s in AllStates ==> s !in Aliases && NormalizeLocation(s) == s
  {
    NoAliasIsReference();
  }

  /** No name occurs twice in the reference list. The list is checked in
      three blocks of twelve names: within each block, then between each
      pair of blocks. */
  lemma ReferenceStatesApart()
    ensures Distinct(AllStates)
  {
    BlockApart0();
    BlockApart1();
    BlockApart2();
    BlocksApart01();
    BlocksApart02();
    BlocksApart12();
  }

  lemma BlockApart0()
    ensures forall i, j :: 0 <= i < j < 12 ==> AllStates[i] != AllStates[j]
  {
  }

  lemma BlockApart1()
    ensures forall i, j :: 12 <= i < j < 24 ==> AllStates[i] != AllStates[j]
  {
  }

  lemma BlockApart2()
    ensures forall i, j :: 24 <= i < j < 36 ==> AllStates[i] != AllStates[j]
  {
  }

  lemma BlocksApart01()
    ensures forall i, j :: 0 <= i < 12 <= j < 24 ==> AllStates[i] != AllStates[j]
  {
  }

  lemma BlocksApart02()
    ensures forall i, j :: 0 <= i < 12 && 24 <= j < 36 ==> AllStates[i] != AllStates[j]
  {
  }

  lemma BlocksApart12()
    ensures forall i, j :: 12 <= i < 24 <= j < 36 ==> AllStates[i] != AllStates[j]
  {
  }
}
