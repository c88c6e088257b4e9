/**
  The Weaviate service as the scripts' client sees it: the names of the
  collections on the cluster, the log of insert_many calls in the order they
  were made, and whether the connection is still open. What the service does
  with the objects (vectorising, storing, ranking) is outside the model; a
  call the service rejects is chosen by a `fault` argument.
*/
module Weaviate {

  /** One object as collection.iterator(include_vector=True) yields it: its properties and its named vectors. */
  datatype Item<P, E> = Item(properties: map<string, P>, vector: map<string, seq<E>>)

  /** A collection handle: client.collections.create and client.collections.get both return one by name. */
  datatype Collection = Collection(name: string)

  /** The client of the cluster; records are maps from property name to value. */
  class Client<V> {
    var collections: set<string>
    var inserted: seq<(string, seq<map<string, V>>)>
    var open: bool

    /** A fresh connection to a cluster that already holds the collections named in existing. */
    constructor (existing: set<string>)
      ensures collections == existing && inserted == [] && open
    {
      collections := existing;
      inserted := [];
      open := true;
    }

    /**
      client.collections.create(name): registers the name, or raises when the
      name is already taken or the service fails.
    */
    method Create(name: string, fault: bool) returns (created: bool)
      requires open
      modifies this
      ensures created <==> !fault && name !in old(collections)
      ensures collections == if created then old(collections) + {name} else old(collections)
      ensures inserted == old(inserted) && open
    {
      created := !fault && name !in collections;
      if created {
        collections := collections + {name};
      }
    }

    /** collection.data.insert_many(objs): one logged call, unless the service rejects it. */
    method InsertMany(c: Collection, objs: seq<map<string, V>>, fault: bool) returns (ok: bool)
      requires open
      modifies this
      ensures ok == !fault
      ensures inserted == if ok then old(inserted) + [(c.name, objs)] else old(inserted)
      ensures collections == old(collections) && open
    {
      ok := !fault;
      if ok {
        inserted := inserted + [(c.name, objs)];
      }
    }

    /** client.close() */
    method Close()
      modifies this
      ensures !open && collections == old(collections) && inserted == old(inserted)
    {
      open := false;
    }
  }
}
