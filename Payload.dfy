/**
  The shape of the generated-project payload exchanged between the server and
  the client: `{ code: { files: [{ path, content, type }] }, explanation,
  dependencies: { npm, commands } }`.
 */
module Payload {

  /** One generated file. `path` is `/`-separated and relative to the project root. */
  datatype FileRecord = FileRecord(path: string, content: string, fileType: string)

  datatype Code = Code(files: seq<FileRecord>)

  datatype Dependencies = Dependencies(npm: seq<string>, commands: seq<string>)

  datatype GenerationResponse =
    GenerationResponse(code: Code, explanation: string, dependencies: Dependencies)
}
