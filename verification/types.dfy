/** Entities shared by the application and its form (src/types.ts). */
module Types {

  /** A value that may be absent: `T | undefined` or `T | null` in the source. */
  datatype Option<+T> = None | Some(value: T)

  /** One entry of the remote collection. The server assigns `id`. */
  datatype Post = Post(id: int, title: string, body: string, userId: int)

  /** The fields a client sends when creating or replacing a post; it has no `id`. */
  datatype PostInput = PostInput(title: string, body: string, userId: int)
}
