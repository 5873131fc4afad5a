/**
  The template's `package.json` as a JSON object, and the step that renames the
  package after the new project.
*/
module Manifest {

  /** A JSON value; numbers keep their literal text. */
  datatype Json =
    | Null
    | Bool(b: bool)
    | Number(literal: string)
    | Str(s: string)
    | Array(items: seq<Json>)
    | Object(fields: map<string, Json>)

  /** The parsed top-level object of `package.json`. */
  type PackageJson = map<string, Json>

  const NameKey: string := "name"

  /**
    Renaming the package: `name` becomes the project name exactly as given,
    whether or not it was present, and every other field is kept.
  */
  function SetName(pkg: PackageJson, projectName: string): (r: PackageJson)
    ensures NameKey in r && r[NameKey] == Str(projectName)
    ensures r.Keys == pkg.Keys + {NameKey}
    ensures forall k :: k in pkg && k != NameKey ==> r[k] == pkg[k]
  {
    pkg[NameKey := Str(projectName)]
  }

  /** A manifest already named after the project is left as it is. */
  lemma SetNameAlreadyNamed(pkg: PackageJson, projectName: string)
    requires NameKey in pkg && pkg[NameKey] == Str(projectName)
    ensures SetName(pkg, projectName) == pkg
  {
  }

  /** Renaming adds a field only when `name` was missing. */
  lemma SetNameSize(pkg: PackageJson, projectName: string)
    ensures |SetName(pkg, projectName)| == if NameKey in pkg then |pkg| else |pkg| + 1
  {
  }
}
