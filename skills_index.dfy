/**
 * One element of the `skills` list of skills_index.json, already parsed.
 * A key the file leaves out reads as the empty string or the empty list,
 * which is what the validator's `get(key, default)` calls produce.
 */
module SkillsIndex {
  datatype Entry = Entry(
    name: string,              // "name"
    path: string,              // "path": the skill's directory
    skillMd: string,           // "files"."skill_md"
    reference: seq<string>     // "files"."reference"
  )
}
