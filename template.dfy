/**
  Choosing what a run does from the command line: the `--re-frame` flag picks
  one of two fixed archives of the uix-starter template, and a missing or empty
  project name shows the help text instead of creating a project.
*/
module Template {
  import opened Wrappers

  /** Archive of the template's default branch. */
  const MasterUrl: string := "https://github.com/pitch-io/uix-starter/archive/master.tar.gz"

  /** Archive of the template's re-frame branch. */
  const ReFrameUrl: string := "https://github.com/pitch-io/uix-starter/archive/re-frame.tar.gz"

  /** What a run does: print the help, or create `name` from the archive at `url`. */
  datatype Action = Help | Run(url: string, name: string)

  /** The archive to download; `--re-frame` selects the re-frame branch. */
  function DownloadUrl(reFrame: bool): (url: string)
    ensures url == ReFrameUrl <==> reFrame
    ensures url == MasterUrl <==> !reFrame
  {
    assert |MasterUrl| != |ReFrameUrl|;
    if reFrame then ReFrameUrl else MasterUrl
  }

  /**
    JavaScript truthiness of the first positional argument: `undefined`
    (`None`) and the empty string are falsy, every other string is truthy.
  */
  predicate Truthy(projectName: Option<string>)
  {
    projectName.Some? && projectName.value != ""
  }

  /**
    A run with a truthy project name creates that project from the selected
    archive; any other run only shows the help.
  */
  function Resolve(projectName: Option<string>, reFrame: bool): (a: Action)
    ensures a.Help? <==> projectName == None || projectName == Some("")
    ensures a.Run? ==> projectName == Some(a.name) && |a.name| > 0
    ensures a.Run? ==> (a.url == ReFrameUrl <==> reFrame)
    ensures a.Run? ==> (a.url == MasterUrl <==> !reFrame)
  {
    var url := DownloadUrl(reFrame);
    if !Truthy(projectName) then Help else Run(url, projectName.value)
  }

  /** The chosen archive depends only on the flag, not on the project name. */
  lemma ResolveUrlIgnoresName(a: string, b: string, reFrame: bool)
    requires a != "" && b != ""
    ensures Resolve(Some(a), reFrame).url == Resolve(Some(b), reFrame).url
    ensures Resolve(Some(a), reFrame).name == a
  {
  }
}
