/**
 * The Classic portfolio template (frontend/app/components/templates/Classic.tsx): a header, a
 * sidebar and a main column.
 */
module ClassicTemplate {
  import opened Wrappers
  import opened Text
  import opened ResumeModel
  import opened View

  datatype Page = Page(
    name: string,
    subtitle: Option<string>,
    contacts: seq<ContactItem>,
    sidebar: seq<Section>,
    main: seq<Section>)

  const SidebarOrder := [Skills, Languages, Certifications, SectionKind.Education]
  const MainOrder := [Profile, SectionKind.Experience, Projects]

  /** One rank for both columns: the sidebar's four kinds, then the main column's three. */
  function Rank(k: SectionKind): int {
    match k
    case Skills => 0
    case Languages => 1
    case Certifications => 2
    case Education => 3
    case Profile => 4
    case Experience => 5
    case Projects => 6
  }

  /** Lines 18-21: the first role and its company, when there is a role. */
  function Subtitle(r: ResumeData): (s: Option<string>)
    ensures s.Some? <==> FirstRole(r).Some?
    ensures s.Some? ==> s.value == r.experience[0].role + " · " + r.experience[0].company
  {
    match FirstRole(r)
    case Some(role) => Some(role + " · " + r.experience[0].company)
    case None => None
  }

  function Render(r: ResumeData): Page {
    Page(
      r.contact.name,
      Subtitle(r),
      ContactRow(r.contact),
      Sections(Classic, r, SidebarOrder),
      Sections(Classic, r, MainOrder))
  }

  lemma RankIncreasing()
    ensures forall i, j :: 0 <= i < j < |SidebarOrder| ==> Rank(SidebarOrder[i]) < Rank(SidebarOrder[j])
    ensures forall i, j :: 0 <= i < j < |MainOrder| ==> Rank(MainOrder[i]) < Rank(MainOrder[j])
  {
    assert forall i :: 0 <= i < |SidebarOrder| ==> Rank(SidebarOrder[i]) == i;
    assert forall i :: 0 <= i < |MainOrder| ==> Rank(MainOrder[i]) == i + 4;
  }

  /** Every kind of section has its place in exactly one of the two columns. */
  lemma OneColumnEach(k: SectionKind)
    ensures k in SidebarOrder <==> k !in MainOrder
  {
    if Rank(k) < 4 {
      assert SidebarOrder[Rank(k)] == k;
    } else {
      assert MainOrder[Rank(k) - 4] == k;
    }
  }

  /**
   * Lines 40-100: the sidebar shows Skills, Languages, Certifications and Education, each exactly
   * when its list is non-empty, in that order.
   */
  lemma SidebarShown(r: ResumeData)
    ensures forall k :: k in ShownKinds(r, SidebarOrder) <==> k in SidebarOrder && HasContent(r, k)
    ensures forall i, j :: 0 <= i < j < |ShownKinds(r, SidebarOrder)| ==>
      Rank(ShownKinds(r, SidebarOrder)[i]) < Rank(ShownKinds(r, SidebarOrder)[j])
  {
    RankIncreasing();
    ShownKindsSpec(r, SidebarOrder, Rank);
  }

  /**
   * Lines 103-170: the main column shows the profile paragraph exactly when there is a summary,
   * then Experience and Projects when their lists are non-empty.
   */
  lemma MainShown(r: ResumeData)
    ensures forall k :: k in ShownKinds(r, MainOrder) <==> k in MainOrder && HasContent(r, k)
    ensures Profile in ShownKinds(r, MainOrder) <==> r.summary != ""
    ensures forall i, j :: 0 <= i < j < |ShownKinds(r, MainOrder)| ==>
      Rank(ShownKinds(r, MainOrder)[i]) < Rank(ShownKinds(r, MainOrder)[j])
  {
    RankIncreasing();
    ShownKindsSpec(r, MainOrder, Rank);
  }

  /** Lines 88-94: Classic leaves the field of study out of every education entry. */
  lemma NoFieldOfStudy(r: ResumeData)
    ensures forall i :: 0 <= i < |r.education| ==> SchoolOf(Classic, r.education[i]).fieldOfStudy == None
  {
  }

  /** Lines 159-162: Classic lays out the chip row of every project, even an empty one. */
  lemma TechAlwaysShown(p: Project)
    ensures CardOf(Classic, p).tech == Some(p.techStack)
  {
  }

  /** A record holding only a name shows the header and neither column has a section. */
  lemma NameOnly(name: string)
    ensures var r := EmptyResume.(contact := EmptyContact.(name := name));
      && Sections(Classic, r, SidebarOrder) == []
      && Sections(Classic, r, MainOrder) == []
      && Subtitle(r) == None
  {
    var r := EmptyResume.(contact := EmptyContact.(name := name));
    NoContentNoSections(Classic, r, SidebarOrder);
    NoContentNoSections(Classic, r, MainOrder);
  }
}
