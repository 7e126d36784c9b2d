/**
 * The uniform in-memory file handed to the extractor (a Vinyl file) and
 * `vinylizeCSSFile`, which builds one from an emitted CSS asset.
 */
module Vinyl {

  import opened Buffers

  /** The four properties the plugin gives a Vinyl file. */
  datatype VinylFile = VinylFile(cwd: string, base: string, path: string, contents: seq<byte>)

  /**
   * `vinylizeCSSFile(filename, basePath, fileContents)`. `path.join` is a
   * collaborator, so it is passed in as `join`.
   */
  function VinylizeCssFile(filename: string, basePath: string, fileContents: seq<byte>,
                           join: (string, string) -> string): (file: VinylFile)
    ensures file.cwd == basePath && file.base == basePath
    ensures file.path == join(basePath, filename)
    ensures file.contents == fileContents
  {
    VinylFile(cwd := basePath, base := basePath, path := join(basePath, filename), contents := fileContents)
  }
}
