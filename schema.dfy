/**
 * The record shapes shared by the server and the client
 * (gnomix-website/shared/schema.ts). Validation is not modelled:
 * only the shapes are mirrored. Numbers the server keeps as counters
 * are non-negative integers.
 */
module Schema {
  import opened Wrappers

  /** One release offered for download. */
  datatype Download = Download(
    id: string,
    version: string,
    filename: string,
    size: string,
    releaseDate: string,
    downloadUrl: string,
    sourceforgeUrl: string,
    githubUrl: string,
    checksum: string,
    isBeta: bool)

  datatype FAQ = FAQ(id: string, question: string, answer: string, category: string)

  datatype Feature = Feature(id: string, title: string, description: string, icon: string)

  /** `avatar` is optional in the schema. */
  datatype Testimonial = Testimonial(
    id: string,
    name: string,
    role: string,
    content: string,
    avatar: Option<string>)

  datatype SystemRequirement = SystemRequirement(
    id: string,
    category: string,
    requirement: string,
    recommended: string)

  /** The counters shown as animated figures on the landing page. */
  datatype Stats = Stats(
    downloads: nat,
    communityMembers: nat,
    githubStars: nat,
    contributors: nat)

  /** True when no two entries of `ids` are equal. */
  predicate DistinctIds(ids: seq<string>)
  {
    forall i, j :: 0 <= i < j < |ids| ==> ids[i] != ids[j]
  }
}
