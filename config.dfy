/** The endpoint configuration shapes the root resolvers are built from. */
module Config {
  import opened Wrappers

  datatype DtoSingleton = DtoSingleton(name: string, query: string, id: Option<string>)
  datatype DtoVector = DtoVector(name: string, query: string)
  datatype DtoResolver = DtoResolver(name: string, queryName: string, url: string, id: Option<string>)

  datatype DtoConfig = DtoConfig(singletons: seq<DtoSingleton>, vectors: seq<DtoVector>,
                                 resolvers: seq<DtoResolver>)
}
