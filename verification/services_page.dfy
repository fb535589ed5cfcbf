/**
 The public services page: a category chip and a search box narrowing a
 fixed catalogue.
 */
module ServicesPage {
  import opened Seqs
  import opened Text

  /** The fields of a catalogue entry the filter reads. */
  datatype Listing = Listing(id: nat, name: string, category: string, provider: string)

  const AllServices: string := "All Services"

  /** The category chips, the catch-all first. */
  const Categories: seq<string> := [AllServices, "Home Services", "Tech Support", "Education", "Healthcare",
                                    "Personal Care", "Transportation", "Food & Dining", "Entertainment"]

  const Catalogue: seq<Listing> := [
    Listing(1, "Plumbing Repair", "Home Services", "John's Plumbing"),
    Listing(2, "Computer Repair", "Tech Support", "TechFix Solutions"),
    Listing(3, "Cleaning Service", "Home Services", "Sparkle Cleaners"),
    Listing(4, "Tutoring", "Education", "EduCare Tutors"),
    Listing(5, "Electrical Work", "Home Services", "PowerPro Electric"),
    Listing(6, "Pet Grooming", "Personal Care", "Furry Friends Care")]

  predicate MatchesCategory(selected: string, s: Listing) {
    selected == AllServices || s.category == selected
  }

  /** The query, lower-cased, occurs in the lower-cased name or provider. */
  predicate MatchesSearch(query: string, s: Listing) {
    Includes(ToLower(s.name), ToLower(query)) || Includes(ToLower(s.provider), ToLower(query))
  }

  /** `filteredServices`. */
  function Filtered(services: seq<Listing>, selected: string, query: string): (r: seq<Listing>)
    ensures forall s :: s in r <==> s in services && MatchesCategory(selected, s) && MatchesSearch(query, s)
    ensures IsSubsequence(r, services) && |r| <= |services|
  {
    Filter(services, (s: Listing) => MatchesCategory(selected, s) && MatchesSearch(query, s))
  }

  /** `toLowerCase` of a lower-case string changes nothing. */
  lemma {:induction false} ToLowerTwice(s: string)
    ensures ToLower(ToLower(s)) == ToLower(s)
  {
    ToLowerOfLowerCase(ToLower(s));
  }

  /** The search ignores the case of the query. */
  lemma {:induction false} SearchIgnoresCase(query: string, s: Listing)
    ensures MatchesSearch(ToLower(query), s) == MatchesSearch(query, s)
  {
    ToLowerTwice(query);
  }

  /** With the catch-all chip and an empty query every service is listed, in
      the catalogue's order. */
  lemma {:induction false} NoFilterListsAll(services: seq<Listing>)
    ensures Filtered(services, AllServices, "") == services
  {
    forall s | s in services ensures MatchesCategory(AllServices, s) && MatchesSearch("", s) {
      IncludesEmpty(ToLower(s.name));
    }
    FilterAllKept(services, (s: Listing) => MatchesCategory(AllServices, s) && MatchesSearch("", s));
  }
}
