/**
 * What the three portfolio templates (frontend/app/components/templates) have in common: the
 * contact row with its link rules, and the sections, each shown only when its list is non-empty.
 * A page is modelled as the blocks it shows, in order; styling is not part of the model.
 */
module View {
  import opened Wrappers
  import opened Text
  import opened ResumeModel

  /** JSX's `s && <…>`: a string is shown only when it is non-empty. */
  function Shown(s: string): (r: Option<string>)
    ensures r.Some? <==> s != ""
    ensures r.Some? ==> r.value == s
  {
    if s != "" then Some(s) else None
  }

  /** The elements of `xs` that satisfy `p`, in their order. */
  function Filter<T(!new)>(xs: seq<T>, p: T -> bool): (r: seq<T>)
    ensures |r| <= |xs|
    ensures forall x :: x in r <==> x in xs && p(x)
  {
    if xs == [] then []
    else
      assert forall x :: x in xs <==> x == xs[0] || x in xs[1..];
      (if p(xs[0]) then [xs[0]] else []) + Filter(xs[1..], p)
  }

  /** Nothing is left when no element satisfies `p`. */
  lemma {:induction false} FilterNone<T(!new)>(xs: seq<T>, p: T -> bool)
    requires forall x :: x in xs ==> !p(x)
    ensures Filter(xs, p) == []
  {
    if xs != [] {
      assert xs[0] in xs;
      FilterNone(xs[1..], p);
    }
  }

  /** Filtering a list ordered by `rank` keeps it ordered. */
  lemma {:induction false} FilterOrdered<T(!new)>(xs: seq<T>, p: T -> bool, rank: T -> int)
    requires forall i, j :: 0 <= i < j < |xs| ==> rank(xs[i]) < rank(xs[j])
    ensures forall i, j :: 0 <= i < j < |Filter(xs, p)| ==> rank(Filter(xs, p)[i]) < rank(Filter(xs, p)[j])
  {
    if xs != [] {
      FilterOrdered(xs[1..], p, rank);
      var rest := Filter(xs[1..], p);
      forall k | 0 <= k < |rest| ensures rank(xs[0]) < rank(rest[k]) {
        assert rest[k] in rest;
        var j :| 0 <= j < |xs[1..]| && xs[1..][j] == rest[k];
        assert xs[j + 1] == rest[k];
      }
      if p(xs[0]) {
        ConsOrdered(xs[0], rest, rank);
      }
    }
  }

  lemma ConsOrdered<T>(x: T, rest: seq<T>, rank: T -> int)
    requires forall i, j :: 0 <= i < j < |rest| ==> rank(rest[i]) < rank(rest[j])
    requires forall k :: 0 <= k < |rest| ==> rank(x) < rank(rest[k])
    ensures forall i, j :: 0 <= i < j < |[x] + rest| ==> rank(([x] + rest)[i]) < rank(([x] + rest)[j])
  {
    var r := [x] + rest;
    forall i, j | 0 <= i < j < |r| ensures rank(r[i]) < rank(r[j]) {
      assert r[j] == rest[j - 1];
      if i > 0 {
        assert r[i] == rest[i - 1];
      }
    }
  }

  // ---------------------------------------------------------------------------------------------
  // The contact row (Minimal.tsx:39-46, Classic.tsx:24-31, Bold.tsx:58-65)

  /** A contact entry: a link, or plain text when it has no address. */
  datatype Element = Link(href: string, caption: string) | Plain(caption: string)

  datatype ContactKind = Email | Phone | Location | GitHubProfile | LinkedIn | Website

  datatype ContactItem = ContactItem(kind: ContactKind, element: Element)

  /** The order of the contact row. */
  const ContactOrder := [Email, Phone, Location, GitHubProfile, LinkedIn, Website]

  function ContactRank(k: ContactKind): int {
    match k
    case Email => 0
    case Phone => 1
    case Location => 2
    case GitHubProfile => 3
    case LinkedIn => 4
    case Website => 5
  }

  function Field(c: Contact, k: ContactKind): string {
    match k
    case Email => c.email
    case Phone => c.phone
    case Location => c.location
    case GitHubProfile => c.github
    case LinkedIn => c.linkedin
    case Website => c.website
  }

  /**
   * `ContactLink`, `ContactChip` and `Pill`: a link exactly when an address is given and is not
   * empty, plain text otherwise, with the same caption either way.
   */
  function LinkOrText(caption: string, href: Option<string>): (e: Element)
    ensures e.caption == caption
    ensures e.Link? <==> href.Some? && href.value != ""
    ensures e.Link? ==> e.href == href.value
  {
    if href.Some? && href.value != "" then Link(href.value, caption) else Plain(caption)
  }

  const GitHubBase := "https://github.com/"
  const LinkedInBase := "https://linkedin.com/in/"

  /** A profile value that already starts with "http" is a URL; otherwise it is a handle. */
  function WithScheme(value: string, base: string): (href: string)
    ensures StartsWith(value, "http") ==> href == value
    ensures !StartsWith(value, "http") ==> href == base + value
  {
    if StartsWith(value, "http") then value else base + value
  }

  /** With a base URL, the normalised address always starts with "http". */
  lemma WithSchemeIsUrl(value: string, base: string)
    requires StartsWith(base, "http")
    ensures StartsWith(WithScheme(value, base), "http")
  {
    if !StartsWith(value, "http") {
      assert (base + value)[..4] == base[..4];
    }
  }

  /** Normalising twice is normalising once. */
  lemma WithSchemeIdempotent(value: string, base: string)
    requires StartsWith(base, "http")
    ensures WithScheme(WithScheme(value, base), base) == WithScheme(value, base)
  {
    WithSchemeIsUrl(value, base);
  }

  /** The entry for one contact field. */
  function ContactEntry(c: Contact, k: ContactKind): (item: ContactItem)
    ensures item.kind == k
    ensures k == Email ==> item.element == Link("mailto:" + c.email, c.email)
    ensures k == Phone || k == Location ==> item.element == Plain(Field(c, k))
    ensures k == GitHubProfile || k == LinkedIn ==>
      && item.element.Link?
      && StartsWith(item.element.href, "http")
      && (StartsWith(Field(c, k), "http") ==> item.element.href == Field(c, k))
    ensures k == GitHubProfile ==> item.element == Link(WithScheme(c.github, GitHubBase), "GitHub")
    ensures k == LinkedIn ==> item.element == Link(WithScheme(c.linkedin, LinkedInBase), "LinkedIn")
    ensures k == Website ==> item.element == LinkOrText("Website", Some(c.website))
  {
    match k
    case Email => ContactItem(k, LinkOrText(c.email, Some("mailto:" + c.email)))
    case Phone => ContactItem(k, LinkOrText(c.phone, None))
    case Location => ContactItem(k, LinkOrText(c.location, None))
    case GitHubProfile =>
      WithSchemeIsUrl(c.github, GitHubBase);
      ContactItem(k, LinkOrText("GitHub", Some(WithScheme(c.github, GitHubBase))))
    case LinkedIn =>
      WithSchemeIsUrl(c.linkedin, LinkedInBase);
      ContactItem(k, LinkOrText("LinkedIn", Some(WithScheme(c.linkedin, LinkedInBase))))
    case Website => ContactItem(k, LinkOrText("Website", Some(c.website)))
  }

  /** The contact row: an entry for every non-empty field, in the fixed order. */
  function ContactRow(c: Contact): seq<ContactItem> {
    Row(c, ContactOrder)
  }

  function Row(c: Contact, order: seq<ContactKind>): seq<ContactItem> {
    var kinds := Filter(order, k => Field(c, k) != "");
    seq(|kinds|, i requires 0 <= i < |kinds| => ContactEntry(c, kinds[i]))
  }

  /**
   * The row has an entry for a field exactly when the field is non-empty, in the order email,
   * phone, location, GitHub, LinkedIn, website; a website entry is always a link.
   */
  lemma ContactRowSpec(c: Contact)
    ensures var row := ContactRow(c);
      && (forall k :: (exists i :: 0 <= i < |row| && row[i].kind == k) <==> Field(c, k) != "")
      && (forall i :: 0 <= i < |row| ==> row[i] == ContactEntry(c, row[i].kind))
      && (forall i, j :: 0 <= i < j < |row| ==> ContactRank(row[i].kind) < ContactRank(row[j].kind))
      && (forall i :: 0 <= i < |row| && row[i].kind == Website ==> row[i].element.Link?)
  {
    ContactOrderRanked();
    forall k ensures k in ContactOrder {
      InContactOrder(k);
    }
    RowSpec(c, ContactOrder);
    assert ContactRow(c) == Row(c, ContactOrder);
  }

  lemma RowSpec(c: Contact, order: seq<ContactKind>)
    requires forall i, j :: 0 <= i < j < |order| ==> ContactRank(order[i]) < ContactRank(order[j])
    requires forall k :: k in order
    ensures var row := Row(c, order);
      && (forall k :: (exists i :: 0 <= i < |row| && row[i].kind == k) <==> Field(c, k) != "")
      && (forall i :: 0 <= i < |row| ==> row[i] == ContactEntry(c, row[i].kind))
      && (forall i, j :: 0 <= i < j < |row| ==> ContactRank(row[i].kind) < ContactRank(row[j].kind))
      && (forall i :: 0 <= i < |row| && row[i].kind == Website ==> row[i].element.Link?)
  {
    var p := k => Field(c, k) != "";
    var kinds := Filter(order, p);
    var row := Row(c, order);
    assert forall i :: 0 <= i < |row| ==> row[i].kind == kinds[i];
    forall i | 0 <= i < |kinds| ensures Field(c, kinds[i]) != "" {
      assert kinds[i] in kinds;
    }
    FilterOrdered(order, p, ContactRank);
    forall k ensures (exists i :: 0 <= i < |row| && row[i].kind == k) <==> Field(c, k) != "" {
      if Field(c, k) != "" {
        assert k in kinds;
        var i :| 0 <= i < |kinds| && kinds[i] == k;
        assert row[i].kind == k;
      }
    }
  }

  /** A contact without any of the six fields set has an empty row. */
  lemma NoContactsNoRow(c: Contact)
    requires forall k :: Field(c, k) == ""
    ensures ContactRow(c) == []
  {
  }

  lemma ContactOrderRanked()
    ensures forall i, j :: 0 <= i < j < |ContactOrder| ==> ContactRank(ContactOrder[i]) < ContactRank(ContactOrder[j])
  {
    assert forall i :: 0 <= i < |ContactOrder| ==> ContactRank(ContactOrder[i]) == i;
  }

  lemma InContactOrder(k: ContactKind)
    ensures k in ContactOrder
  {
    assert ContactOrder[ContactRank(k)] == k;
  }

  // ---------------------------------------------------------------------------------------------
  // Sections

  datatype Template = Minimal | Classic | Bold

  datatype SectionKind = Skills | Experience | Projects | Education | Languages | Certifications | Profile

  /** An experience entry; the highlight list is there only when it is non-empty. */
  datatype Job = Job(role: string, company: string, duration: string, highlights: Option<seq<string>>)

  /** A project card; `tech` is the chip row, absent when the template leaves it out. */
  datatype Card = Card(
    name: string,
    githubLink: Option<string>,
    link: Option<string>,
    description: Option<string>,
    tech: Option<seq<string>>)

  /** An education entry; `gpa` is the text shown, "GPA: " and the value. */
  datatype School = School(
    degree: string,
    institution: string,
    fieldOfStudy: Option<string>,
    year: Option<string>,
    gpa: Option<string>)

  datatype Body =
    | Items(items: seq<string>)
    | Jobs(jobs: seq<Job>)
    | Cards(cards: seq<Card>)
    | Schools(schools: seq<School>)
    | Paragraph(text: string)

  datatype Section = Section(kind: SectionKind, title: string, body: Body)

  /** Whether the record has something for the section: a non-empty list, or a summary. */
  predicate HasContent(r: ResumeData, k: SectionKind) {
    match k
    case Skills => r.skills != []
    case Experience => r.experience != []
    case Projects => r.projects != []
    case Education => r.education != []
    case Languages => r.languages != []
    case Certifications => r.certifications != []
    case Profile => r.summary != ""
  }

  function Title(k: SectionKind): string {
    match k
    case Skills => "Skills"
    case Experience => "Experience"
    case Projects => "Projects"
    case Education => "Education"
    case Languages => "Languages"
    case Certifications => "Certifications"
    case Profile => "Profile"
  }

  function JobOf(e: Experience): (j: Job)
    ensures j.highlights.Some? <==> e.highlights != []
  {
    Job(e.role, e.company, e.duration, if e.highlights != [] then Some(e.highlights) else None)
  }

  /**
   * A project card: the two links and the description only when set; Minimal shows the chip row
   * only for a non-empty stack, Classic and Bold always lay it out.
   */
  function CardOf(t: Template, p: Project): (c: Card)
    ensures c.githubLink.Some? <==> p.githubUrl != ""
    ensures c.link.Some? <==> p.url != ""
    ensures c.tech.Some? <==> t != Minimal || p.techStack != []
    ensures c.tech.Some? ==> c.tech.value == p.techStack
  {
    Card(p.name, Shown(p.githubUrl), Shown(p.url), Shown(p.description),
      if t != Minimal || p.techStack != [] then Some(p.techStack) else None)
  }

  /** An education entry: only Minimal shows the field of study; year and GPA when set. */
  function SchoolOf(t: Template, e: Education): (s: School)
    ensures s.fieldOfStudy.Some? <==> t == Minimal && e.fieldOfStudy != ""
    ensures s.year == Shown(e.graduationYear)
    ensures s.gpa.Some? <==> e.gpa != ""
    ensures s.gpa.Some? ==> s.gpa.value == "GPA: " + e.gpa
  {
    School(e.degree, e.institution, if t == Minimal then Shown(e.fieldOfStudy) else None,
      Shown(e.graduationYear), if e.gpa != "" then Some("GPA: " + e.gpa) else None)
  }

  /** The section of kind `k` as template `t` lays it out. */
  function SectionOf(t: Template, r: ResumeData, k: SectionKind): (s: Section)
    ensures s.kind == k && s.title == Title(k)
  {
    var body := match k
      case Skills => Items(r.skills)
      case Experience => Jobs(seq(|r.experience|, i requires 0 <= i < |r.experience| => JobOf(r.experience[i])))
      case Projects => Cards(seq(|r.projects|, i requires 0 <= i < |r.projects| => CardOf(t, r.projects[i])))
      case Education => Schools(seq(|r.education|, i requires 0 <= i < |r.education| => SchoolOf(t, r.education[i])))
      case Languages => Items(r.languages)
      case Certifications => Items(r.certifications)
      case Profile => Paragraph(r.summary);
    Section(k, Title(k), body)
  }

  /** The kinds of `order` the record has content for, in that order. */
  function ShownKinds(r: ResumeData, order: seq<SectionKind>): seq<SectionKind> {
    Filter(order, k => HasContent(r, k))
  }

  /** The sections of `order` that have content, in that order. */
  function Sections(t: Template, r: ResumeData, order: seq<SectionKind>): seq<Section> {
    var kinds := ShownKinds(r, order);
    seq(|kinds|, i requires 0 <= i < |kinds| => SectionOf(t, r, kinds[i]))
  }

  /**
   * A kind of `order` is shown exactly when the record has content for it, and the kinds shown
   * keep the order's sequence (given as a rank).
   */
  lemma ShownKindsSpec(r: ResumeData, order: seq<SectionKind>, rank: SectionKind -> int)
    requires forall i, j :: 0 <= i < j < |order| ==> rank(order[i]) < rank(order[j])
    ensures forall k :: k in ShownKinds(r, order) <==> k in order && HasContent(r, k)
    ensures forall i, j :: 0 <= i < j < |ShownKinds(r, order)| ==>
      rank(ShownKinds(r, order)[i]) < rank(ShownKinds(r, order)[j])
  {
    FilterOrdered(order, k => HasContent(r, k), rank);
  }

  /**
   * A section of `order` is shown exactly when the record has content for it, at most once when
   * the order names it once, and in the order's sequence (given as a rank).
   */
  lemma SectionsSpec(t: Template, r: ResumeData, order: seq<SectionKind>, rank: SectionKind -> int)
    requires forall i, j :: 0 <= i < j < |order| ==> rank(order[i]) < rank(order[j])
    ensures var s := Sections(t, r, order);
      && (forall k :: (exists i :: 0 <= i < |s| && s[i].kind == k) <==> k in order && HasContent(r, k))
      && (forall i :: 0 <= i < |s| ==> s[i] == SectionOf(t, r, s[i].kind))
      && (forall i, j :: 0 <= i < j < |s| ==> rank(s[i].kind) < rank(s[j].kind))
  {
    var kinds := ShownKinds(r, order);
    var s := Sections(t, r, order);
    ShownKindsSpec(r, order, rank);
    assert forall i :: 0 <= i < |s| ==> s[i].kind == kinds[i];
    forall k ensures (exists i :: 0 <= i < |s| && s[i].kind == k) <==> k in order && HasContent(r, k) {
      if k in order && HasContent(r, k) {
        var i :| 0 <= i < |kinds| && kinds[i] == k;
        assert s[i].kind == k;
      }
    }
  }

  /** A record with nothing but contact details has no section in any order. */
  lemma NoContentNoSections(t: Template, r: ResumeData, order: seq<SectionKind>)
    requires r.skills == [] && r.experience == [] && r.projects == [] && r.education == []
    requires r.languages == [] && r.certifications == [] && r.summary == ""
    ensures Sections(t, r, order) == []
  {
    FilterNone(order, k => HasContent(r, k));
  }

  /** `experience[0]?.role`, when it is a non-empty string. */
  function FirstRole(r: ResumeData): (role: Option<string>)
    ensures role.Some? <==> r.experience != [] && r.experience[0].role != ""
    ensures role.Some? ==> role.value == r.experience[0].role
  {
    if r.experience != [] && r.experience[0].role != "" then Some(r.experience[0].role) else None
  }
}
