/**
 The service categories: the shared constant tables, the slug that turns a
 category name into the path segment of its page, and the links built from
 it on the categories page, the home page section and the footer.
 */
module Categories {
  import opened Text

  /** A category card: its number, name, emoji and the advertised count. */
  datatype Category = Category(id: nat, name: string, icon: string, count: string)

  /** `serviceCategories`: the choices of the create-service form. */
  const ServiceCategories: seq<string> := ["Home Services", "Tech Support", "Education", "Healthcare",
                                           "Personal Care", "Transportation", "Food & Dining", "Entertainment", "Other"]

  /** `categoryObjects`. */
  const CategoryObjects: seq<Category> := [
    Category(1, "Home Services", "\U{1F3E0}", "120+ services"),
    Category(2, "Tech Support", "\U{1F4BB}", "85+ services"),
    Category(3, "Healthcare", "\U{1F3E5}", "65+ services"),
    Category(4, "Education", "\U{1F393}", "90+ services"),
    Category(5, "Transportation", "\U{1F697}", "70+ services"),
    Category(6, "Personal Care", "\U{1F487}", "110+ services"),
    Category(7, "Food & Dining", "\U{1F37D}\U{FE0F}", "50+ services"),
    Category(8, "Entertainment", "\U{1F3AC}", "40+ services")]

  /** The table the categories page declares for itself. */
  const CategoriesPageTable: seq<Category> := [
    Category(1, "Home Services", "\U{1F3E0}", "120+ services"),
    Category(2, "Tech Support", "\U{1F4BB}", "85+ services"),
    Category(3, "Healthcare", "\U{1F3E5}", "65+ services"),
    Category(4, "Education", "\U{1F393}", "90+ services"),
    Category(5, "Transportation", "\U{1F697}", "70+ services"),
    Category(6, "Personal Care", "\U{1F487}", "110+ services"),
    Category(7, "Food & Dining", "\U{1F37D}\U{FE0F}", "50+ services"),
    Category(8, "Entertainment", "\U{1F3AC}", "40+ services")]

  /** The table the home page's category section declares for itself. */
  const ExploreTable: seq<Category> := [
    Category(1, "Home Services", "\U{1F3E0}", "120+ services"),
    Category(2, "Tech Support", "\U{1F4BB}", "85+ services"),
    Category(3, "Healthcare", "\U{1F3E5}", "65+ services"),
    Category(4, "Education", "\U{1F393}", "90+ services"),
    Category(5, "Transportation", "\U{1F697}", "70+ services"),
    Category(6, "Personal Care", "\U{1F487}", "110+ services"),
    Category(7, "Food & Dining", "\U{1F37D}\U{FE0F}", "50+ services"),
    Category(8, "Entertainment", "\U{1F3AC}", "40+ services")]

  /** The three copies of the table agree entry for entry. */
  lemma {:induction false} TablesAgree()
    ensures CategoriesPageTable == ExploreTable == CategoryObjects
  {
  }

  /** The form's choices are pairwise distinct; every card names one of
      them; `Other` is a choice with no card. */
  lemma {:induction false} CategoryListsConsistent()
    ensures forall i, j :: 0 <= i < j < |ServiceCategories| ==> ServiceCategories[i] != ServiceCategories[j]
    ensures forall c :: c in CategoryObjects ==> c.name in ServiceCategories
    ensures "Other" in ServiceCategories && forall c :: c in CategoryObjects ==> c.name != "Other"
  {
  }

  /** The cards are numbered 1 to 8 in order, so no number repeats. */
  lemma {:induction false} CategoryIds()
    ensures |CategoryObjects| == 8
    ensures forall i :: 0 <= i < |CategoryObjects| ==> CategoryObjects[i].id == i + 1
    ensures forall i, j :: 0 <= i < j < |CategoryObjects| ==> CategoryObjects[i].id != CategoryObjects[j].id
  {
  }

  // ---------------------------------------------------------------------------
  // The slug: `name.toLowerCase().replace(/\s+/g, '-')`
  // ---------------------------------------------------------------------------

  /** `replace(/\s+/g, '-')`: scanning left to right, the first whitespace
      character of a run emits `-` and the rest of the run emits nothing.
      `inRun` says the previous character was whitespace. */
  function Dash(s: string, inRun: bool): (r: string)
    ensures |r| <= |s|
  {
    if s == [] then []
    else if IsSpace(s[0]) then (if inRun then [] else ['-']) + Dash(s[1..], true)
    else [s[0]] + Dash(s[1..], false)
  }

  /** The path segment of a category's page. */
  function Slug(name: string): (slug: string)
    ensures IsLowerCase(slug)
    ensures NoSpace(slug)
  {
    var lower := ToLower(name);
    DashShape(lower, false);
    Dash(lower, false)
  }

  /** The dashes replace every whitespace character, and nothing upper-case
      is introduced. */
  lemma {:induction false} DashShape(s: string, inRun: bool)
    ensures NoSpace(Dash(s, inRun))
    ensures IsLowerCase(s) ==> IsLowerCase(Dash(s, inRun))
    decreases |s|
  {
    if s != [] {
      DashShape(s[1..], IsSpace(s[0]));
      assert IsLowerCase(s) ==> IsLowerCase(s[1..]);
    }
  }

  /** `/category/<slug>`, the link of a category card. */
  function Href(name: string): (href: string)
    ensures "/category/" <= href && NoSpace(href[10..])
  {
    "/category/" + Slug(name)
  }

  /** Text without whitespace passes through unchanged. */
  lemma {:induction false} DashNoSpace(s: string, inRun: bool)
    requires NoSpace(s)
    ensures Dash(s, inRun) == s
    decreases |s|
  {
    if s != [] {
      DashNoSpace(s[1..], false);
    }
  }

  /** Whether a run was open does not matter before a non-space character. */
  lemma {:induction false} DashAfterRun(s: string)
    requires s == [] || !IsSpace(s[0])
    ensures Dash(s, true) == Dash(s, false)
  {
  }

  /** A non-empty whitespace run followed by text that does not start with
      whitespace becomes one `-` (none if a run was already open). */
  lemma {:induction false} DashRun(run: string, rest: string, inRun: bool)
    requires run != [] && forall i :: 0 <= i < |run| ==> IsSpace(run[i])
    requires rest == [] || !IsSpace(rest[0])
    ensures Dash(run + rest, inRun) == (if inRun then [] else ['-']) + Dash(rest, false)
    decreases |run|
  {
    var s := run + rest;
    assert s[0] == run[0] && s[1..] == run[1..] + rest;
    if |run| == 1 {
      assert s[1..] == rest;
      DashAfterRun(rest);
    } else {
      DashRun(run[1..], rest, true);
    }
  }

  /** Text that ends in a non-space character is translated independently
      of what follows it. */
  lemma {:induction false} DashAppend(a: string, rest: string, inRun: bool)
    requires a != [] && !IsSpace(a[|a| - 1])
    ensures Dash(a + rest, inRun) == Dash(a, inRun) + Dash(rest, false)
    decreases |a|
  {
    var s := a + rest;
    assert s[0] == a[0] && s[1..] == a[1..] + rest;
    if |a| == 1 {
      assert s[1..] == rest;
    } else {
      DashAppend(a[1..], rest, IsSpace(a[0]));
    }
  }

  /** Each maximal whitespace run becomes a single `-` and everything else
      is kept in order: the text before a run, one dash, the text after it. */
  lemma {:induction false} RunsCollapse(a: string, run: string, b: string)
    requires a == [] || !IsSpace(a[|a| - 1])
    requires run != [] && forall i :: 0 <= i < |run| ==> IsSpace(run[i])
    requires b == [] || !IsSpace(b[0])
    ensures Dash(a + run + b, false) == Dash(a, false) + "-" + Dash(b, false)
  {
    DashRun(run, b, false);
    var tail := Dash(run + b, false);
    assert tail == ['-'] + Dash(b, false);
    if a != [] {
      DashAppend(a, run + b, false);
      assert a + run + b == a + (run + b);
      assert Dash(a + run + b, false) == Dash(a, false) + tail;
    } else {
      assert a + run + b == run + b;
      assert Dash(a, false) == [];
    }
  }

  /** Slugging a slug changes nothing. */
  lemma {:induction false} SlugIdempotent(name: string)
    ensures Slug(Slug(name)) == Slug(name)
  {
    var s := Slug(name);
    ToLowerOfLowerCase(s);
    DashNoSpace(s, false);
  }

  /** Lower-casing works character by character, so it distributes over
      concatenation and keeps whitespace where it was. */
  lemma {:induction false} ToLowerAppend(x: string, y: string)
    ensures ToLower(x + y) == ToLower(x) + ToLower(y)
  {
    var l, r := ToLower(x + y), ToLower(x) + ToLower(y);
    assert |l| == |r|;
    forall i | 0 <= i < |l| ensures l[i] == r[i] {
      if i < |x| {
        assert (x + y)[i] == x[i];
      } else {
        assert (x + y)[i] == y[i - |x|];
      }
    }
  }

  lemma {:induction false} ToLowerNoSpace(x: string)
    requires NoSpace(x)
    ensures NoSpace(ToLower(x)) && |ToLower(x)| == |x|
  {
    forall i | 0 <= i < |x| ensures !IsSpace(ToLower(x)[i]) {
      assert ToLower(x)[i] == LowerChar(x[i]);
    }
  }

  /** A word given character by character: no whitespace, and `l` is its
      lower-case form. */
  lemma {:induction false} Word(w: string, l: string)
    requires |w| == |l|
    requires forall i :: 0 <= i < |w| ==> !IsSpace(w[i]) && LowerChar(w[i]) == l[i]
    ensures NoSpace(w) && ToLower(w) == l
  {
  }

  /** Two words joined by one space: the space becomes a dash. */
  lemma {:induction false} DashTwoWords(a: string, b: string)
    requires a != [] && b != [] && NoSpace(a) && NoSpace(b)
    ensures Dash(a + " " + b, false) == a + "-" + b
  {
    RunsCollapse(a, " ", b);
    DashNoSpace(a, false);
    DashNoSpace(b, false);
  }

  /** Three words joined by single spaces: both spaces become dashes. */
  lemma {:induction false} DashThreeWords(a: string, b: string, c: string)
    requires a != [] && b != [] && c != [] && NoSpace(a) && NoSpace(b) && NoSpace(c)
    ensures Dash(a + " " + b + " " + c, false) == a + "-" + b + "-" + c
  {
    var bc := b + " " + c;
    assert a + " " + b + " " + c == a + " " + bc;
    RunsCollapse(a, " ", bc);
    DashNoSpace(a, false);
    DashTwoWords(b, c);
    assert a + "-" + b + "-" + c == a + "-" + (b + "-" + c);
  }

  /** Two words joined by one space slug to the two slugs joined by a dash. */
  lemma {:induction false} SlugTwoWords(a: string, b: string)
    requires a != [] && b != [] && NoSpace(a) && NoSpace(b)
    ensures Slug(a + " " + b) == ToLower(a) + "-" + ToLower(b)
  {
    ToLowerAppend(a + " ", b);
    ToLowerAppend(a, " ");
    assert ToLower(" ") == " ";
    ToLowerNoSpace(a);
    ToLowerNoSpace(b);
    DashTwoWords(ToLower(a), ToLower(b));
  }

  /** A single word slugs to its lower-case form. */
  lemma {:induction false} SlugOneWord(w: string)
    requires NoSpace(w)
    ensures Slug(w) == ToLower(w)
  {
    ToLowerNoSpace(w);
    DashNoSpace(ToLower(w), false);
  }

  /** A name of two words, each given with its lower-case form. */
  lemma {:induction false} TwoWordSlug(name: string, a: string, b: string, slug: string, la: string, lb: string)
    requires name == a + " " + b && slug == la + "-" + lb && a != [] && b != []
    requires |a| == |la| && forall i :: 0 <= i < |a| ==> !IsSpace(a[i]) && LowerChar(a[i]) == la[i]
    requires |b| == |lb| && forall i :: 0 <= i < |b| ==> !IsSpace(b[i]) && LowerChar(b[i]) == lb[i]
    ensures Slug(name) == slug
  {
    Word(a, la);
    Word(b, lb);
    SlugTwoWords(a, b);
  }

  /** Three words joined by single spaces slug to their lower-case forms
      joined by dashes. */
  lemma {:induction false} SlugThreeWords(a: string, b: string, c: string)
    requires a != [] && b != [] && c != [] && NoSpace(a) && NoSpace(b) && NoSpace(c)
    ensures Slug(a + " " + b + " " + c) == ToLower(a) + "-" + ToLower(b) + "-" + ToLower(c)
  {
    ToLowerAppend(a + " " + b + " ", c);
    ToLowerAppend(a + " " + b, " ");
    ToLowerAppend(a + " ", b);
    ToLowerAppend(a, " ");
    assert ToLower(" ") == " ";
    ToLowerNoSpace(a);
    ToLowerNoSpace(b);
    ToLowerNoSpace(c);
    DashThreeWords(ToLower(a), ToLower(b), ToLower(c));
  }

  /** A name of three words, each given with its lower-case form. */
  lemma {:induction false} ThreeWordSlug(name: string, a: string, b: string, c: string,
                                         slug: string, la: string, lb: string, lc: string)
    requires name == a + " " + b + " " + c && slug == la + "-" + lb + "-" + lc && a != [] && b != [] && c != []
    requires |a| == |la| && forall i :: 0 <= i < |a| ==> !IsSpace(a[i]) && LowerChar(a[i]) == la[i]
    requires |b| == |lb| && forall i :: 0 <= i < |b| ==> !IsSpace(b[i]) && LowerChar(b[i]) == lb[i]
    requires |c| == |lc| && forall i :: 0 <= i < |c| ==> !IsSpace(c[i]) && LowerChar(c[i]) == lc[i]
    ensures Slug(name) == slug
  {
    Word(a, la);
    Word(b, lb);
    Word(c, lc);
    SlugThreeWords(a, b, c);
  }
}
