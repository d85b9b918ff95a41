/** Records shared by the catalog, the cache and the configuration dialog. */
module Types {

  /** An absent-or-present value; stands for `T | null` and `T | undefined`. */
  datatype Option<+T> = None | Some(value: T)

  /** One catalog entry as src/types.ts declares it: eight string fields,
      none of them optional. */
  datatype DockerApp = DockerApp(
    Name: string,
    Description: string,
    SourceCode: string,
    License: string,
    Tag: string,
    ID: string,
    IconUrl: string,
    DockerComposeUrl: string)
}
