/** The operating system as the mapper uses it: source files and open descriptors. */
module Host {
  import opened Bytes
  import opened Consts
  import opened Layouts
  import opened Wrappers

  datatype OpenError = CannotOpen(path: string)

  /** At most `count` bytes of `content` from `offset` on; short only at the end of the file. */
  function Clip(content: seq<byte>, offset: nat, count: nat): (data: seq<byte>)
    ensures |data| <= count && (|data| < count ==> offset + |data| >= |content|)
    ensures forall k :: 0 <= k < |data| ==> offset + k < |content| && data[k] == content[offset + k]
  {
    if offset >= |content| then []
    else content[offset..Min(offset + count, |content|)]
  }

  class Host {
    /** The files that can be opened; opening any other path raises. */
    const files: Sources
    var descriptors: map<nat, string>
    var next: nat

    ghost predicate Valid()
      reads this
    {
      forall fd :: fd in descriptors ==> fd < next && descriptors[fd] in files
    }

    constructor (files: Sources)
      ensures Valid() && this.files == files && descriptors == map[]
    {
      this.files := files;
      descriptors := map[];
      next := 3;
    }

    method Open(path: string) returns (r: Result<nat, OpenError>)
      requires Valid()
      modifies this
      ensures Valid()
      ensures path in files ==>
        r.Ok? && r.value !in old(descriptors) && descriptors == old(descriptors)[r.value := path]
      ensures path !in files ==> r == Err(CannotOpen(path)) && descriptors == old(descriptors)
    {
      if path !in files {
        return Err(CannotOpen(path));
      }
      descriptors := descriptors[next := path];
      r := Ok(next);
      next := next + 1;
    }

    method Pread(fd: nat, count: nat, offset: nat) returns (data: seq<byte>)
      requires Valid() && fd in descriptors
      ensures data == Clip(files[descriptors[fd]], offset, count)
    {
      data := Clip(files[descriptors[fd]], offset, count);
    }

    method Close(fd: nat)
      requires Valid() && fd in descriptors
      modifies this
      ensures Valid() && descriptors == old(descriptors) - {fd}
    {
      descriptors := descriptors - {fd};
    }
  }
}
