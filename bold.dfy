/**
 * The Bold portfolio template (frontend/app/components/templates/Bold.tsx): a hero with a role
 * badge and the name one word per line, then numbered sections.
 */
module BoldTemplate {
  import opened Wrappers
  import opened Text
  import opened ResumeModel
  import opened View

  /** A word of the name; every word after the first is set in the accent colour. */
  datatype NameWord = NameWord(text: string, accent: bool)

  datatype Page = Page(
    badge: string,
    nameWords: seq<NameWord>,
    summary: Option<string>,
    pills: seq<ContactItem>,
    sections: seq<Section>,
    numbers: seq<string>)

  const DefaultBadge := "Developer"

  const Order := [Skills, SectionKind.Experience, Projects, SectionKind.Education, Languages, Certifications]

  function Rank(k: SectionKind): int {
    match k
    case Skills => 0
    case Experience => 1
    case Projects => 2
    case Education => 3
    case Languages => 4
    case Certifications => 5
    case Profile => 6
  }

  /** Line 42: the first role, or "Developer" when there is none. */
  function Badge(r: ResumeData): (b: string)
    ensures FirstRole(r).Some? ==> b == r.experience[0].role
    ensures FirstRole(r).None? ==> b == DefaultBadge
    ensures b != ""
  {
    FirstRole(r).GetOr(DefaultBadge)
  }

  /** Lines 47-49: the name split at single spaces, the first word plain and the rest accented. */
  function NameWords(name: string): (ws: seq<NameWord>)
    ensures |ws| >= 1
    ensures forall i :: 0 <= i < |ws| ==> (ws[i].accent <==> i > 0)
    ensures forall i :: 0 <= i < |ws| ==> ' ' !in ws[i].text
  {
    var words := Split(name, ' ');
    seq(|words|, i requires 0 <= i < |words| => NameWord(words[i], i > 0))
  }

  function Texts(ws: seq<NameWord>): seq<string> {
    seq(|ws|, i requires 0 <= i < |ws| => ws[i].text)
  }

  /** The words of the name, put back together with single spaces, are the name. */
  lemma NameWordsRoundTrip(name: string)
    ensures Join(Texts(NameWords(name)), " ") == name
  {
    assert Texts(NameWords(name)) == Split(name, ' ');
    JoinSplit(name, ' ');
  }

  /** A name without a space is one plain word. */
  lemma SingleWord(name: string)
    requires ' ' !in name
    ensures NameWords(name) == [NameWord(name, false)]
  {
    SplitNoSep(name, ' ');
  }

  /** Lines 74-185: the number each section carries, "01" to "06" in the fixed order. */
  function Number(k: SectionKind): (n: string)
    ensures |n| == 2 && n[0] == '0' && '1' <= n[1] <= '7'
    ensures k != Profile ==> n[1] <= '6'
  {
    ['0', ('1' as int + Rank(k)) as char]
  }

  /** The number over each section shown, section by section. */
  function Numbers(r: ResumeData): seq<string> {
    var ks := ShownKinds(r, Order);
    seq(|ks|, i requires 0 <= i < |ks| => Number(ks[i]))
  }

  function Render(r: ResumeData): Page {
    Page(Badge(r), NameWords(r.contact.name), Shown(r.summary), ContactRow(r.contact),
      Sections(Bold, r, Order), Numbers(r))
  }

  lemma RankIncreasing()
    ensures forall i, j :: 0 <= i < j < |Order| ==> Rank(Order[i]) < Rank(Order[j])
  {
    assert forall i :: 0 <= i < |Order| ==> Rank(Order[i]) == i;
  }

  /** The numbers are the positions in the fixed order: 01 Skills up to 06 Certifications. */
  lemma NumbersByPosition()
    ensures forall i :: 0 <= i < |Order| ==> Number(Order[i]) == ['0', ('1' as int + i) as char]
  {
    assert forall i :: 0 <= i < |Order| ==> Rank(Order[i]) == i;
  }

  /** Every kind of section but the Classic-only profile paragraph has its place in Bold. */
  lemma EveryKindButProfile(k: SectionKind)
    ensures k in Order <==> k != Profile
  {
    if k != Profile {
      assert Order[Rank(k)] == k;
    }
  }

  /**
   * Lines 70-196: Skills, Experience, Projects, Education, Languages and Certifications, each
   * exactly when its list is non-empty, in that order.
   */
  lemma KindsShown(r: ResumeData)
    ensures forall k :: k in ShownKinds(r, Order) <==> k != Profile && HasContent(r, k)
    ensures forall i, j :: 0 <= i < j < |ShownKinds(r, Order)| ==>
      Rank(ShownKinds(r, Order)[i]) < Rank(ShownKinds(r, Order)[j])
  {
    RankIncreasing();
    ShownKindsSpec(r, Order, Rank);
    forall k ensures k in Order <==> k != Profile {
      EveryKindButProfile(k);
    }
  }

  /**
   * A section keeps its number when others are missing: the numbers on the page rise strictly,
   * with gaps where a section is left out.
   */
  lemma NumbersRise(r: ResumeData)
    ensures forall i, j :: 0 <= i < j < |Numbers(r)| ==> Numbers(r)[i][1] < Numbers(r)[j][1]
  {
    KindsRise(r);
    var ks := ShownKinds(r, Order);
    var ns := Numbers(r);
    forall i, j | 0 <= i < j < |ns| ensures ns[i][1] < ns[j][1] {
      NumberOrder(ks[i], ks[j]);
    }
  }

  lemma KindsRise(r: ResumeData)
    ensures forall i, j :: 0 <= i < j < |ShownKinds(r, Order)| ==>
      Rank(ShownKinds(r, Order)[i]) < Rank(ShownKinds(r, Order)[j])
  {
    RankIncreasing();
    ShownKindsSpec(r, Order, Rank);
  }

  lemma NumberOrder(a: SectionKind, b: SectionKind)
    requires Rank(a) < Rank(b)
    ensures Number(a)[1] < Number(b)[1]
  {
  }

  /** A record without skills but with experience opens at "02". */
  lemma OpensAtTwo(r: ResumeData)
    requires r.skills == [] && r.experience != []
    ensures Numbers(r)[0] == "02"
  {
    KindsShown(r);
    var ks := ShownKinds(r, Order);
    assert SectionKind.Experience in ks;
    assert ks[0] == SectionKind.Experience;
  }

  /** A record holding only a name shows the badge "Developer" and no section. */
  lemma NameOnly(name: string)
    ensures var r := EmptyResume.(contact := EmptyContact.(name := name));
      Sections(Bold, r, Order) == [] && ContactRow(r.contact) == [] && Badge(r) == DefaultBadge
  {
    var r := EmptyResume.(contact := EmptyContact.(name := name));
    NoContentNoSections(Bold, r, Order);
    NoContactsNoRow(r.contact);
  }
}
