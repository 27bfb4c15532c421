/** The admin dashboard's profile search and its tab badges. */
module Admin {
  import opened Seqs
  import opened Text

  datatype Profile = Profile(id: string, name: string, branch: string)

  /** The four tables the dashboard loads; only their lengths matter here. */
  datatype Tables<M, G, L> = Tables(profiles: seq<Profile>, matches: seq<M>, messages: seq<G>, likes: seq<L>)

  /** The search predicate: the lower-cased term occurs in the lower-cased name, branch or id. */
  predicate Hit(p: Profile, term: string) {
    var t := Lower(term);
    Contains(Lower(p.name), t) || Contains(Lower(p.branch), t) || Contains(Lower(p.id), t)
  }

  /** `filteredProfiles`. */
  function FilteredProfiles(profiles: seq<Profile>, term: string): (r: seq<Profile>)
    ensures forall i :: 0 <= i < |r| ==> r[i] in profiles && Hit(r[i], term)
    ensures forall i :: 0 <= i < |profiles| && Hit(profiles[i], term) ==> profiles[i] in r
  {
    Filter(profiles, (p: Profile) => Hit(p, term))
  }

  /** The result lists the matching profiles in table order, each as often as in the table. */
  lemma FilteredKeepsOrder(profiles: seq<Profile>, term: string)
    ensures IsSubsequence(FilteredProfiles(profiles, term), profiles)
    ensures forall p :: multiset(FilteredProfiles(profiles, term))[p] == if Hit(p, term) then multiset(profiles)[p] else 0
  {
    FilterIsSubsequence(profiles, (p: Profile) => Hit(p, term));
    forall p ensures multiset(FilteredProfiles(profiles, term))[p] == if Hit(p, term) then multiset(profiles)[p] else 0 {
      FilterMultiplicity(profiles, (p: Profile) => Hit(p, term), p);
    }
  }

  /** An empty search shows every profile. */
  lemma EmptySearchKeepsAll(profiles: seq<Profile>)
    ensures FilteredProfiles(profiles, "") == profiles
  {
    forall p | p in profiles ensures Hit(p, "") {
      ContainsEmpty(Lower(p.name));
    }
    FilterKeepsAll(profiles, (p: Profile) => Hit(p, ""));
  }

  /** Searching the result again with the same term changes nothing. */
  lemma FilterTwice(profiles: seq<Profile>, term: string)
    ensures FilteredProfiles(FilteredProfiles(profiles, term), term) == FilteredProfiles(profiles, term)
  {
    FilterIdempotent(profiles, (p: Profile) => Hit(p, term));
  }

  /** Terms that differ only in letter case find the same profiles. */
  lemma SearchIgnoresCase(profiles: seq<Profile>, a: string, b: string)
    requires Lower(a) == Lower(b)
    ensures FilteredProfiles(profiles, a) == FilteredProfiles(profiles, b)
  {
    FilterCongruent(profiles, (p: Profile) => Hit(p, a), (p: Profile) => Hit(p, b));
  }

  /** In particular, searching for the lower-cased term is the same search. */
  lemma SearchLowerCaseTerm(profiles: seq<Profile>, term: string)
    ensures FilteredProfiles(profiles, Lower(term)) == FilteredProfiles(profiles, term)
  {
    LowerIdempotent(term);
    SearchIgnoresCase(profiles, Lower(term), term);
  }

  datatype Badges = Badges(profiles: nat, matches: nat, messages: nat, likes: nat)

  /** The tab badges count whole tables: the search narrows the list, never the badge. */
  function TabBadges<M, G, L>(t: Tables<M, G, L>, term: string): (b: Badges)
    ensures b.profiles >= |FilteredProfiles(t.profiles, term)|
    ensures b.profiles == |FilteredProfiles(t.profiles, "")|
    ensures b.profiles == |t.profiles| && b.matches == |t.matches|
    ensures b.messages == |t.messages| && b.likes == |t.likes|
  {
    EmptySearchKeepsAll(t.profiles);
    Badges(|t.profiles|, |t.matches|, |t.messages|, |t.likes|)
  }
}
