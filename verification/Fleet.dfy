/** What routing reads: the state of each server and the published route table. */
module Fleet {
  import opened Names

  datatype Key = Key(host: string, server: string)

  /** The fields of a server's state that routing and probing depend on. */
  datatype ServerView = ServerView(up: bool, consecFail: nat, active: string, models: seq<string>, addrs: seq<string>) {
    /** Up with an address to send to; nothing else can answer a request. */
    predicate Live() {
      up && active != ""
    }
  }

  type Servers = map<Key, ServerView>

  /** One published model id mapped to exactly one server. */
  datatype Target = Target(published: string, base: string, key: Key)

  type Table = map<string, Target>

  predicate TargetLive(t: Target, servers: Servers) {
    t.key in servers && servers[t.key].Live()
  }
}
