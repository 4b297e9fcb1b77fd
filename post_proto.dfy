/** The post service's gRPC request messages and its post message, as the gateway and the service exchange them. */
module PostProto {
  import opened Wrappers

  /** Protobuf `int32`. */
  type Int32 = x: int | -0x8000_0000 <= x < 0x8000_0000

  datatype CreatePostRequest = CreatePostRequest(title: string, description: string, isPrivate: bool, tags: seq<string>)
  datatype UpdatePostRequest = UpdatePostRequest(
    postId: string, title: string, description: string, isPrivate: bool, tags: seq<string>)
  datatype GetPostRequest = GetPostRequest(postId: string)
  datatype DeletePostRequest = DeletePostRequest(postId: string)
  datatype ListMyPostsRequest = ListMyPostsRequest(page: Int32, pageSize: Int32)
  datatype ListPublicPostsRequest = ListPublicPostsRequest(page: Int32, pageSize: Int32, userId: Option<string>)

  /** The wire form of a post; timestamps are Unix seconds. */
  datatype Post = Post(
    id: string, userId: string, title: string, description: string,
    createdAt: int, updatedAt: int, isPrivate: bool, tags: seq<string>)
}
