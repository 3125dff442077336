/** A batch of keys, and for a put also values, as in TAIR/tair_test/Opjob.cpp. */
module OpJob {

  class OpJob {
    const flag: int  // 0 put, 1 get, 2 delete
    const keys: array<string>
    const vals: array?<string>
    var index: nat

    ghost predicate Valid()
      reads this
    {
      && index <= keys.Length
      && (vals == null <==> flag != 0)
      && (vals != null ==> vals.Length == keys.Length && vals != keys)
    }

    function Keys(): seq<string>
      requires Valid()
      reads this, keys
    {
      keys[..index]
    }

    function Vals(): seq<string>
      requires Valid()
      reads this, vals
    {
      if vals == null then [] else vals[..index]
    }

    constructor (keynum: nat, flag: int)
      ensures Valid() && this.flag == flag && keys.Length == keynum
      ensures fresh(keys) && (vals != null ==> fresh(vals))
      ensures Keys() == [] && Vals() == []
    {
      var ks := new string[keynum];
      keys := ks;
      index := 0;
      this.flag := flag;
      if flag == 0 {
        var vs := new string[keynum];
        vals := vs;
      } else {
        vals := null;
      }
    }

    /** Copies as many characters as the lengths say, which the buffers must have. An empty key
      adds nothing; an empty value, or none, leaves the value slot as it is. The arrays do not
      grow, and only a put may carry values. */
    method Add(key: string, keyLen: int, val: string, valLen: int)
      requires Valid()
      requires keyLen > 0 ==> |Keys()| < keys.Length && (valLen > 0 ==> flag == 0)
      requires keyLen <= |key| && valLen <= |val|
      modifies this`index, keys, vals
      ensures Valid()
      ensures Keys() == if keyLen > 0 then old(Keys()) + [key[..keyLen]] else old(Keys())
      ensures keyLen > 0 && valLen > 0 ==> Vals() == old(Vals()) + [val[..valLen]]
      ensures |Vals()| >= |old(Vals())| && Vals()[..|old(Vals())|] == old(Vals())
    {
      if keyLen <= 0 {
        return;
      }
      keys[index] := key[..keyLen];
      if valLen <= 0 {
        index := index + 1;
        return;
      }
      vals[index] := val[..valLen];
      index := index + 1;
    }

    method GetSize() returns (n: nat)
      requires Valid()
      ensures n == |Keys()|
    {
      n := index;
    }
  }
}
