/** The post service's stored record; times are Unix seconds. */
module PostModels {
  datatype Post = Post(
    id: string,
    userId: string,
    title: string,
    description: string,
    createdAt: int,
    updatedAt: int,
    isPrivate: bool,
    tags: seq<string>)
}
