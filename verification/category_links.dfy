/**
 The category links as the pages render them: the slug of each of the eight
 cards, and the footer's hard-coded links checked against them. The lemmas
 about one name take the name as a parameter fixed by their precondition, so
 that the literal name is unfolded only inside that one lemma.
 */
module CategoryLinks {
  import opened Text
  import opened Categories

  /** The slug of each of the eight cards, in table order. */
  const CardSlugs: seq<string> := ["home-services", "tech-support", "healthcare", "education",
                                   "transportation", "personal-care", "food-&-dining", "entertainment"]

  /** A name of one word slugs to its lower-case form. */
  lemma {:induction false} HealthcareCard(name: string, slug: string)
    requires name == "Healthcare" && slug == "healthcare"
    ensures Slug(name) == slug
  {
    Word(name, slug);
    SlugOneWord(name);
  }

  lemma {:induction false} EducationCard(name: string, slug: string)
    requires name == "Education" && slug == "education"
    ensures Slug(name) == slug
  {
    Word(name, slug);
    SlugOneWord(name);
  }

  lemma {:induction false} TransportationCard(name: string, slug: string)
    requires name == "Transportation" && slug == "transportation"
    ensures Slug(name) == slug
  {
    Word(name, slug);
    SlugOneWord(name);
  }

  lemma {:induction false} EntertainmentCard(name: string, slug: string)
    requires name == "Entertainment" && slug == "entertainment"
    ensures Slug(name) == slug
  {
    Word(name, slug);
    SlugOneWord(name);
  }

  lemma {:induction false} HomeServicesCard(name: string, slug: string)
    requires name == "Home Services" && slug == "home-services"
    ensures Slug(name) == slug
  {
    TwoWordSlug(name, "Home", "Services", slug, "home", "services");
  }

  lemma {:induction false} TechSupportCard(name: string, slug: string)
    requires name == "Tech Support" && slug == "tech-support"
    ensures Slug(name) == slug
  {
    TwoWordSlug(name, "Tech", "Support", slug, "tech", "support");
  }

  lemma {:induction false} PersonalCareCard(name: string, slug: string)
    requires name == "Personal Care" && slug == "personal-care"
    ensures Slug(name) == slug
  {
    TwoWordSlug(name, "Personal", "Care", slug, "personal", "care");
  }

  /** Both spaces of "Food & Dining" become dashes and the ampersand stays. */
  lemma {:induction false} FoodAndDiningCard(name: string, slug: string)
    requires name == "Food & Dining" && slug == "food-&-dining"
    ensures Slug(name) == slug
  {
    ThreeWordSlug(name, "Food", "&", "Dining", slug, "food", "&", "dining");
  }

  /** The slug of every card, in table order. */
  lemma {:induction false} CardSlugsAreSlugs()
    ensures forall i :: 0 <= i < |CategoryObjects| ==> Slug(CategoryObjects[i].name) == CardSlugs[i]
  {
    forall i | 0 <= i < |CategoryObjects|
      ensures Slug(CategoryObjects[i].name) == CardSlugs[i]
    {
      var name, slug := CategoryObjects[i].name, CardSlugs[i];
      if i == 0 {
        HomeServicesCard(name, slug);
      } else if i == 1 {
        TechSupportCard(name, slug);
      } else if i == 5 {
        PersonalCareCard(name, slug);
      } else if i == 6 {
        FoodAndDiningCard(name, slug);
      } else if i == 2 {
        HealthcareCard(name, slug);
      } else if i == 3 {
        EducationCard(name, slug);
      } else if i == 4 {
        TransportationCard(name, slug);
      } else {
        EntertainmentCard(name, slug);
      }
    }
  }

  /** Length and first letter already tell the eight slugs apart. */
  lemma {:induction false} CardSlugsKeyed()
    ensures forall i, j :: 0 <= i < j < |CardSlugs| ==> |CardSlugs[i]| != |CardSlugs[j]| || CardSlugs[i][0] != CardSlugs[j][0]
  {
  }

  /** No two cards link to the same page. */
  lemma {:induction false} CardSlugsDistinct()
    ensures forall i, j :: 0 <= i < j < |CategoryObjects| ==> Href(CategoryObjects[i].name) != Href(CategoryObjects[j].name)
  {
    CardSlugsAreSlugs();
    CardSlugsKeyed();
    forall i, j | 0 <= i < j < |CategoryObjects|
      ensures Href(CategoryObjects[i].name) != Href(CategoryObjects[j].name)
    {
      assert CardSlugs[i] != CardSlugs[j];
      assert Href(CategoryObjects[i].name)[10..] == CardSlugs[i];
      assert Href(CategoryObjects[j].name)[10..] == CardSlugs[j];
    }
  }

  /** The footer's hard-coded category links. */
  const FooterLinks: seq<(string, string)> := [
    ("Home Services", "/category/home-services"),
    ("Tech Support", "/category/tech-support"),
    ("Healthcare", "/category/healthcare"),
    ("Education", "/category/education"),
    ("Transportation", "/category/transportation")]

  lemma {:induction false} HomeServicesLink(name: string, href: string)
    requires name == "Home Services" && href == "/category/home-services"
    ensures href == Href(name)
  {
    HomeServicesCard(name, "home-services");
    assert href == "/category/" + "home-services";
  }

  lemma {:induction false} TechSupportLink(name: string, href: string)
    requires name == "Tech Support" && href == "/category/tech-support"
    ensures href == Href(name)
  {
    TechSupportCard(name, "tech-support");
    assert href == "/category/" + "tech-support";
  }

  lemma {:induction false} HealthcareLink(name: string, href: string)
    requires name == "Healthcare" && href == "/category/healthcare"
    ensures href == Href(name)
  {
    HealthcareCard(name, "healthcare");
    assert href == "/category/" + "healthcare";
  }

  lemma {:induction false} EducationLink(name: string, href: string)
    requires name == "Education" && href == "/category/education"
    ensures href == Href(name)
  {
    EducationCard(name, "education");
    assert href == "/category/" + "education";
  }

  lemma {:induction false} TransportationLink(name: string, href: string)
    requires name == "Transportation" && href == "/category/transportation"
    ensures href == Href(name)
  {
    TransportationCard(name, "transportation");
    assert href == "/category/" + "transportation";
  }

  /** Each footer link is the link the card of the same name builds. */
  lemma {:induction false} FooterLinksMatchCards()
    ensures forall k :: 0 <= k < |FooterLinks| ==> FooterLinks[k].1 == Href(FooterLinks[k].0)
  {
    forall k | 0 <= k < |FooterLinks| ensures FooterLinks[k].1 == Href(FooterLinks[k].0) {
      if k == 0 {
        HomeServicesLink(FooterLinks[k].0, FooterLinks[k].1);
      } else if k == 1 {
        TechSupportLink(FooterLinks[k].0, FooterLinks[k].1);
      } else if k == 2 {
        HealthcareLink(FooterLinks[k].0, FooterLinks[k].1);
      } else if k == 3 {
        EducationLink(FooterLinks[k].0, FooterLinks[k].1);
      } else {
        TransportationLink(FooterLinks[k].0, FooterLinks[k].1);
      }
    }
  }
}
