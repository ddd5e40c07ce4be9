/** The Minimal portfolio template (frontend/app/components/templates/Minimal.tsx). */
module MinimalTemplate {
  import opened Wrappers
  import opened Text
  import opened ResumeModel
  import opened View

  /** The page as Minimal lays it out: navigation bar, hero block and the sections. */
  datatype Page = Page(
    brand: string,
    nav: seq<Element>,
    initial: string,
    name: string,
    subtitle: Option<string>,
    contacts: seq<ContactItem>,
    summary: Option<string>,
    sections: seq<Section>)

  const NavLabels := ["About", "Experience", "Projects", "Education"]

  /** The section order of the main column. */
  const Order := [Skills, SectionKind.Experience, Projects, SectionKind.Education, Languages, Certifications]

  function Rank(k: SectionKind): int {
    match k
    case Skills => 0
    case Experience => 1
    case Projects => 2
    case Education => 3
    case Languages => 4
    case Certifications => 5
    case Profile => 6
  }

  /** One link per label, to the label's lowercased id. */
  function NavLinks(): seq<Element> {
    seq(|NavLabels|, i requires 0 <= i < |NavLabels| => Link("#" + Lower(NavLabels[i]), NavLabels[i]))
  }

  /** Line 28: the first character of the name, or "?" for an empty name. */
  function Initial(name: string): (s: string)
    ensures |s| == 1
    ensures name == "" ==> s == "?"
    ensures name != "" ==> s[0] == name[0]
  {
    if name != "" then [name[0]] else "?"
  }

  function Render(r: ResumeData): Page {
    Page(
      r.contact.name,
      NavLinks(),
      Initial(r.contact.name),
      r.contact.name,
      FirstRole(r),
      ContactRow(r.contact),
      Shown(r.summary),
      Sections(Minimal, r, Order))
  }

  /** Lines 16-17: the navigation is the same four links whatever the record holds. */
  lemma NavLinksFixed()
    ensures NavLinks() == [
      Link("#about", "About"), Link("#experience", "Experience"),
      Link("#projects", "Projects"), Link("#education", "Education")]
  {
    LowerLabels();
    assert NavLinks()[0] == Link("#about", "About");
    assert NavLinks()[1] == Link("#experience", "Experience");
    assert NavLinks()[2] == Link("#projects", "Projects");
    assert NavLinks()[3] == Link("#education", "Education");
  }

  lemma LowerLabels()
    ensures Lower("About") == "about" && Lower("Experience") == "experience"
    ensures Lower("Projects") == "projects" && Lower("Education") == "education"
  {
    assert Lower("About") == "about";
    assert Lower("Experience") == "experience";
    assert Lower("Projects") == "projects";
  }

  lemma RankIncreasing()
    ensures forall i, j :: 0 <= i < j < |Order| ==> Rank(Order[i]) < Rank(Order[j])
  {
    assert forall i :: 0 <= i < |Order| ==> Rank(Order[i]) == i;
  }

  /** Every kind of section but the Classic-only profile paragraph has its place in Minimal. */
  lemma EveryKindButProfile(k: SectionKind)
    ensures k in Order <==> k != Profile
  {
    if k != Profile {
      assert Order[Rank(k)] == k;
    }
  }

  /**
   * Lines 52-163: Skills, Experience, Projects, Education, Languages and Certifications, each
   * exactly when its list is non-empty, in that order.
   */
  lemma KindsShown(r: ResumeData)
    ensures forall k :: k in ShownKinds(r, Order) <==> k != Profile && HasContent(r, k)
    ensures forall i, j :: 0 <= i < j < |ShownKinds(r, Order)| ==>
      Rank(ShownKinds(r, Order)[i]) < Rank(ShownKinds(r, Order)[j])
  {
    RankIncreasing();
    ShownKindsSpec(r, Order, Rank);
    forall k ensures k in Order <==> k != Profile {
      EveryKindButProfile(k);
    }
  }

  /** A record holding only a name shows the hero block and no section. */
  lemma NameOnly(name: string)
    ensures var r := EmptyResume.(contact := EmptyContact.(name := name));
      Sections(Minimal, r, Order) == [] && ContactRow(r.contact) == []
  {
    var r := EmptyResume.(contact := EmptyContact.(name := name));
    NoContentNoSections(Minimal, r, Order);
    NoContactsNoRow(r.contact);
  }
}
