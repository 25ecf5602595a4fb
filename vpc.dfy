/** The probe's network (infrastructure/src/vpc/index.py): one VPC with the
    block 207.13.0.0/16 and a /24 subnet in each of up to three availability
    zones of the region, two regions being special-cased. */
module Vpc {
  import opened Wrappers
  import opened Decimal

  /** An IPv4 block `a.b.c.d/prefix`. */
  datatype Cidr = Cidr(a: nat, b: nat, c: nat, d: nat, prefix: nat)

  /** The block as the stack writes it. */
  function CidrText(x: Cidr): string {
    NatToString(x.a) + "." + NatToString(x.b) + "." + NatToString(x.c) + "." + NatToString(x.d) + "/" + NatToString(x.prefix)
  }

  function Pow2(n: nat): (p: nat)
    ensures p >= 1
  {
    if n == 0 then 1 else 2 * Pow2(n - 1)
  }

  /** The first address of the block, as a 32-bit number. */
  function Address(x: Cidr): nat {
    ((x.a * 256 + x.b) * 256 + x.c) * 256 + x.d
  }

  /** The number of addresses in the block. */
  function Size(x: Cidr): nat
    requires x.prefix <= 32
  {
    Pow2(32 - x.prefix)
  }

  /** Every address of `inner` is an address of `outer`. */
  predicate Contains(outer: Cidr, inner: Cidr)
    requires outer.prefix <= 32 && inner.prefix <= 32
  {
    Address(outer) <= Address(inner) && Address(inner) + Size(inner) <= Address(outer) + Size(outer)
  }

  /** The two blocks share no address. */
  predicate Disjoint(x: Cidr, y: Cidr)
    requires x.prefix <= 32 && y.prefix <= 32
  {
    Address(x) + Size(x) <= Address(y) || Address(y) + Size(y) <= Address(x)
  }

  const VpcBlock := Cidr(207, 13, 0, 0, 16)

  /** The candidate zones, in order: a letter and its subnet block. */
  const Candidates: seq<(string, Cidr)> := [("a", Cidr(207, 13, 0, 0, 24)),
                                            ("b", Cidr(207, 13, 1, 0, 24)),
                                            ("c", Cidr(207, 13, 2, 0, 24))]

  /** The decimal texts of the numbers the blocks use. */
  lemma NumberTexts()
    ensures NatToString(0) == "0" && NatToString(1) == "1" && NatToString(2) == "2"
    ensures NatToString(13) == "13" && NatToString(16) == "16" && NatToString(24) == "24"
    ensures NatToString(207) == "207"
  {
    assert NatToString(20) == NatToString(2) + ['0'];
    assert NatToString(207) == NatToString(20) + ['7'];
    assert NatToString(13) == NatToString(1) + ['3'];
    assert NatToString(16) == NatToString(1) + ['6'];
    assert NatToString(24) == NatToString(2) + ['4'];
  }

  /** The blocks are written as the stack writes them. */
  lemma CandidateTexts()
    ensures CidrText(VpcBlock) == "207.13.0.0/16"
    ensures CidrText(Candidates[0].1) == "207.13.0.0/24"
    ensures CidrText(Candidates[1].1) == "207.13.1.0/24"
    ensures CidrText(Candidates[2].1) == "207.13.2.0/24"
  {
    NumberTexts();
  }

  /** The zone letter a candidate gets in a region, or `None` when the
      region skips it: ap-northeast-1 uses d for b, us-west-1 has no c. */
  function Letter(region: string, letter: string): (r: Option<string>)
    ensures r.None? <==> region == "us-west-1" && letter == "c"
  {
    if region == "ap-northeast-1" && letter == "b" then Some("d")
    else if region == "us-west-1" && letter == "c" then None
    else Some(letter)
  }

  /** A subnet: its own construct's id, the id of the subnet inside it, the
      VPC it belongs to, its zone and its block. */
  datatype Subnet = Subnet(constructId: string, subnetId: string, vpcId: string,
                           availabilityZone: string, cidr: Cidr)

  /** `VPCSubnet(scope, name, suffix, region, environment, az, vpc_id, cidr)`. */
  function VpcSubnet(name: string, suffix: string, az: string, vpcId: string, cidr: Cidr): (s: Subnet)
    ensures s.constructId == name + suffix + "-subnet-" + az
    ensures s.subnetId == name + suffix + "-subnet-construct-" + az
    ensures s.availabilityZone == az && s.vpcId == vpcId && s.cidr == cidr
  {
    Subnet(name + suffix + "-subnet-" + az, name + suffix + "-subnet-construct-" + az, vpcId, az, cidr)
  }

  /** The subnets made from a list of candidates, in candidate order. */
  function Subnets(name: string, suffix: string, region: string, vpcId: string, cs: seq<(string, Cidr)>): (ss: seq<Subnet>)
    ensures |ss| <= |cs|
    decreases |cs|
  {
    if |cs| == 0 then []
    else
      var rest := Subnets(name, suffix, region, vpcId, cs[..|cs| - 1]);
      var (letter, cidr) := cs[|cs| - 1];
      match Letter(region, letter)
      case None => rest
      case Some(l) => rest + [VpcSubnet(name, suffix, region + l, vpcId, cidr)]
  }

  /** The VPC resource. */
  datatype VpcResource = VpcResource(id: string, cidr: Cidr)

  class VPC {
    const vpc: VpcResource
    var subnets: seq<Subnet>

    /** `VPC.__init__`: the VPC, then the loop over the candidates that
        renames or skips per region and appends a subnet for each zone kept. */
    constructor (name: string, suffix: string, region: string, environment: string)
      ensures vpc == VpcResource(name + suffix + "-vpc-construct-", VpcBlock)
      ensures subnets == Subnets(name, suffix, region, vpc.id, Candidates)
    {
      vpc := VpcResource(name + suffix + "-vpc-construct-", Cidr(207, 13, 0, 0, 16));
      subnets := [];
      new;
      for i := 0 to |Candidates|
        invariant subnets == Subnets(name, suffix, region, vpc.id, Candidates[..i])
      {
        var (az, cidr) := Candidates[i];
        assert Candidates[..i + 1][..i] == Candidates[..i];
        if region == "ap-northeast-1" && az == "b" {
          az := "d";
        } else if region == "us-west-1" && az == "c" {
          continue;
        }
        var availabilityZone := region + az;
        subnets := subnets + [Subnet(name + suffix + "-subnet-" + availabilityZone,
                                     name + suffix + "-subnet-construct-" + availabilityZone,
                                     vpc.id, availabilityZone, cidr)];
      }
      assert Candidates[..|Candidates|] == Candidates;
    }
  }

  // ------------------------------------------------------------ properties

  /** The zone letters a region's subnets get, in candidate order. */
  function ZoneLetters(region: string): (ls: seq<string>)
    ensures |ls| <= |Candidates|
    ensures forall k :: 0 <= k < |ls| ==> |ls[k]| == 1
    ensures forall k, l :: 0 <= k < l < |ls| ==> ls[k][0] != ls[l][0]
  {
    if region == "us-west-1" then ["a", "b"]
    else if region == "ap-northeast-1" then ["a", "d", "c"]
    else ["a", "b", "c"]
  }

  /** The subnets of each kind of region: us-west-1 gets zones a and b,
      ap-northeast-1 gets a, d and c, every other region a, b and c; each
      zone is the region's name followed by the letter, and each keeps its
      candidate's block. */
  lemma SubnetsByRegion(name: string, suffix: string, region: string, vpcId: string)
    ensures var ss := Subnets(name, suffix, region, vpcId, Candidates);
            var letters := ZoneLetters(region);
            |ss| == |letters| &&
            forall i :: 0 <= i < |ss| ==>
              ss[i] == VpcSubnet(name, suffix, region + letters[i], vpcId, Candidates[i].1)
  {
    assert Candidates[..2][..1] == Candidates[..1];
    assert Candidates[..3][..2] == Candidates[..2];
    assert Candidates[..1][..0] == [];
    assert Candidates[..3] == Candidates;
  }

  /** Every subnet block lies inside the VPC block. */
  lemma SubnetsInsideVpc(name: string, suffix: string, region: string, vpcId: string, i: nat)
    requires i < |Subnets(name, suffix, region, vpcId, Candidates)|
    ensures Subnets(name, suffix, region, vpcId, Candidates)[i].cidr.prefix <= 32
    ensures Contains(VpcBlock, Subnets(name, suffix, region, vpcId, Candidates)[i].cidr)
  {
    SubnetsByRegion(name, suffix, region, vpcId);
    CandidateInside(i);
  }

  lemma CandidateInside(i: nat)
    requires i < |Candidates|
    ensures Candidates[i].1.prefix <= 32 && Contains(VpcBlock, Candidates[i].1)
  {
    assert Pow2(8) == 256;
    assert Pow2(16) == 65536;
  }

  /** No two subnets overlap, and no two share a zone or a construct id. */
  lemma SubnetsDistinct(name: string, suffix: string, region: string, vpcId: string, i: nat, j: nat)
    requires i < j < |Subnets(name, suffix, region, vpcId, Candidates)|
    ensures var ss := Subnets(name, suffix, region, vpcId, Candidates);
            ss[i].cidr.prefix <= 32 && ss[j].cidr.prefix <= 32 &&
            Disjoint(ss[i].cidr, ss[j].cidr) &&
            ss[i].availabilityZone != ss[j].availabilityZone &&
            ss[i].constructId != ss[j].constructId
  {
    var ss := Subnets(name, suffix, region, vpcId, Candidates);
    SubnetsByRegion(name, suffix, region, vpcId);
    CandidatesDisjoint(i, j);
    var letters := ZoneLetters(region);
    var zi, zj := region + letters[i], region + letters[j];
    LastChar(region, letters[i]);
    LastChar(region, letters[j]);
    LastChar(name + suffix + "-subnet-", zi);
    LastChar(name + suffix + "-subnet-", zj);
  }

  /** The candidate blocks are pairwise disjoint. */
  lemma CandidatesDisjoint(i: nat, j: nat)
    requires i < j < |Candidates|
    ensures Candidates[i].1.prefix <= 32 && Candidates[j].1.prefix <= 32
    ensures Disjoint(Candidates[i].1, Candidates[j].1)
  {
    assert Pow2(8) == 256;
  }

  lemma LastChar(p: string, a: string)
    requires |a| > 0
    ensures (p + a)[|p + a| - 1] == a[|a| - 1]
  {
  }
}
