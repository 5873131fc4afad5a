/**
  One run of the script, from reading the command line to writing the
  personalised files, with the download and the unpacking of the archive
  abstracted as a function from the archive URL to the two files of
  the unpacked template that the script rewrites.
*/
module Scaffold {
  import opened Wrappers
  import opened Manifest
  import Template
  import Readme

  /** `package.json` (parsed) and `README.md` of an unpacked template. */
  datatype Files = Files(manifest: PackageJson, readme: string)

  /** The end of a run: the help text, or a project directory with its rewritten files. */
  datatype Outcome = ShowHelp | Created(url: string, dir: string, manifest: PackageJson, readme: string)

  /**
    A run: with a truthy project name, the selected archive is unpacked into a
    directory of that name and its manifest and README are personalised;
    otherwise only the help is shown and nothing is downloaded.
  */
  function Create(projectName: Option<string>, reFrame: bool, archive: string -> Files): (o: Outcome)
    ensures o.ShowHelp? <==> !Template.Truthy(projectName)
    ensures o.Created? ==> projectName == Some(o.dir)
    ensures o.Created? ==> (o.url == Template.ReFrameUrl <==> reFrame) && (o.url == Template.MasterUrl <==> !reFrame)
    ensures o.Created? ==> o.manifest == SetName(archive(o.url).manifest, o.dir)
    ensures o.Created? ==> o.readme == Readme.Personalize(archive(o.url).readme, o.dir)
  {
    match Template.Resolve(projectName, reFrame)
    case Help => ShowHelp
    case Run(url, name) =>
      var files := archive(url);
      Created(url, name, SetName(files.manifest, name), Readme.Personalize(files.readme, name))
  }

  /**
    After a run the manifest is named exactly after the project and keeps every
    other field of the template's manifest.
  */
  lemma CreatedManifest(projectName: string, reFrame: bool, archive: string -> Files)
    requires projectName != ""
    ensures var o := Create(Some(projectName), reFrame, archive);
      && o.Created?
      && NameKey in o.manifest && o.manifest[NameKey] == Str(projectName)
      && o.manifest.Keys == archive(o.url).manifest.Keys + {NameKey}
      && forall k :: k in archive(o.url).manifest && k != NameKey ==>
           o.manifest[k] == archive(o.url).manifest[k]
  {
  }

  /** After a run no line of the README is a template line. */
  lemma CreatedReadme(projectName: string, reFrame: bool, archive: string -> Files)
    requires projectName != ""
    ensures var o := Create(Some(projectName), reFrame, archive);
      && o.Created?
      && forall k :: 0 <= k < |Readme.Lines(o.readme)| ==> !Readme.IsTemplateLine(Readme.Lines(o.readme)[k])
  {
    var o := Create(Some(projectName), reFrame, archive);
    Readme.PersonalizeNoTemplateLine(archive(o.url).readme, projectName);
  }
}
