/** The typed resume record the extractor produces (the dataclasses of backend/extractor.py). */
module ResumeModel {

  datatype Contact = Contact(
    name: string,
    email: string,
    phone: string,
    location: string,
    linkedin: string,
    github: string,
    website: string)

  datatype Experience = Experience(
    company: string,
    role: string,
    duration: string,
    location: string,
    highlights: seq<string>)

  datatype Project = Project(
    name: string,
    description: string,
    techStack: seq<string>,
    url: string,
    githubUrl: string)

  datatype Education = Education(
    institution: string,
    degree: string,
    fieldOfStudy: string,
    graduationYear: string,
    gpa: string)

  datatype ResumeData = ResumeData(
    contact: Contact,
    summary: string,
    skills: seq<string>,
    experience: seq<Experience>,
    projects: seq<Project>,
    education: seq<Education>,
    certifications: seq<string>,
    languages: seq<string>)

  /** Every field at its dataclass default. */
  const EmptyContact := Contact("", "", "", "", "", "", "")
  const EmptyResume := ResumeData(EmptyContact, "", [], [], [], [], [], [])
}
