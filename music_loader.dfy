/** The catalog loader's own logic: the S3 address `determine_s3_url` gives a
    title, the rewrite of every song's `img_url` to that address before
    upload, and the key schema `create_table` asks DynamoDB for. Reading the
    JSON file, the upload and the table-creation call itself are not part of
    this model. The image uploader names its objects differently (see
    `UploadKey`), so the address is not that of an uploaded image. */
module MusicLoader {
  import opened Outcomes

  const Bucket := "s3897093-rmit-song-images"
  const Region := "us-east-1"

  /** Every image address starts with this. */
  const UrlPrefix := "https://s3897093-rmit-song-images.s3.us-east-1.amazonaws.com/"

  /** The host part of the address, from the bucket and the region. */
  lemma HostFromParts()
    ensures "https://" + Bucket + ".s3." + Region == "https://s3897093-rmit-song-images.s3.us-east-1"
  {
  }

  lemma UrlPrefixFromParts()
    ensures "https://" + Bucket + ".s3." + Region + ".amazonaws.com/" == UrlPrefix
  {
    HostFromParts();
  }

  /** `determine_s3_url`: a virtual-hosted-style address in the image bucket
      for an object named after the title alone: the fixed prefix, then the
      title as it is. */
  function S3Url(title: string): (url: string)
    ensures url == UrlPrefix + title
  {
    UrlPrefixFromParts();
    "https://" + Bucket + ".s3." + Region + ".amazonaws.com/" + title
  }

  /** The title an address was made from: the text after the fixed prefix. */
  function TitleOfUrl(url: string): Option<string>
  {
    if UrlPrefix <= url then Some(url[|UrlPrefix|..]) else None
  }

  /** Every address `S3Url` makes gives its title back, so two different titles
      never share an image address. */
  lemma S3UrlRoundTrip(title: string)
    ensures TitleOfUrl(S3Url(title)) == Some(title)
  {
  }

  lemma S3UrlInjective(a: string, b: string)
    requires S3Url(a) == S3Url(b)
    ensures a == b
  {
    S3UrlRoundTrip(a);
    S3UrlRoundTrip(b);
  }

  /** The key the image uploader stores a song's image under in the same
      bucket: the title, a dash, then the artist. */
  function UploadKey(title: string, artist: string): (key: string)
    ensures |key| == |title| + 1 + |artist|
    ensures title <= key && key[|title|] == '-'
    ensures key[|title| + 1..] == artist
  {
    title + "-" + artist
  }

  /** The address the loader writes for a song never names the object the
      image uploader stored for that same song: the uploaded key carries the
      artist as well, so the two addresses differ in length. */
  lemma S3UrlMissesUploadedImage(title: string, artist: string)
    ensures S3Url(title) != UrlPrefix + UploadKey(title, artist)
  {
  }

  /** One entry of the music file, a dictionary the loader changes in place. */
  class Song {
    var title: string
    var artist: string
    var year: int
    var webUrl: string
    var imgUrl: string

    constructor (title: string, artist: string, year: int, webUrl: string, imgUrl: string)
      ensures this.title == title && this.artist == artist && this.year == year
      ensures this.webUrl == webUrl && this.imgUrl == imgUrl
    {
      this.title := title;
      this.artist := artist;
      this.year := year;
      this.webUrl := webUrl;
      this.imgUrl := imgUrl;
    }
  }

  /** `replace_img_urls`: overwrites each entry's `img_url` with the address
      derived from its title, in place, and returns the same list. */
  method ReplaceImgUrls(entries: seq<Song>) returns (result: seq<Song>)
    modifies entries
    ensures result == entries
    ensures forall s :: s in entries ==> s.imgUrl == S3Url(s.title)
    ensures forall s :: s in entries ==>
              && s.title == old(s.title) && s.artist == old(s.artist)
              && s.year == old(s.year) && s.webUrl == old(s.webUrl)
  {
    for i := 0 to |entries|
      invariant forall k :: 0 <= k < i ==> entries[k].imgUrl == S3Url(entries[k].title)
      invariant forall s :: s in entries ==>
                  && s.title == old(s.title) && s.artist == old(s.artist)
                  && s.year == old(s.year) && s.webUrl == old(s.webUrl)
    {
      var song := entries[i];
      song.imgUrl := S3Url(song.title);
    }
    result := entries;
  }

  /** A key attribute name as `create_table` accepts it: `str | int`. */
  datatype KeyName = StrKey(name: string) | IntKey(number: int)

  /** `KeyType`: the role of a key attribute. */
  datatype KeyType = Primary | Sort

  /** The name DynamoDB knows each role by. */
  function KeyTypeName(k: KeyType): (r: string)
    ensures r == "HASH" <==> k.Primary?
    ensures r == "RANGE" <==> k.Sort?
  {
    match k
    case Primary => "HASH"
    case Sort => "RANGE"
  }

  /** The attribute type DynamoDB is told for a key: string or number. */
  function AttributeType(key: KeyName): (t: string)
    ensures t == "S" <==> key.StrKey?
    ensures t == "N" <==> key.IntKey?
  {
    if key.StrKey? then "S" else "N"
  }

  datatype KeySchemaElement = KeySchemaElement(attributeName: KeyName, keyType: KeyType)
  datatype AttributeDefinition = AttributeDefinition(attributeName: KeyName, attributeType: string)

  /** The arguments `create_table` passes to DynamoDB. */
  datatype CreateTableRequest = CreateTableRequest(
    tableName: string,
    keySchema: seq<KeySchemaElement>,
    attributeDefinitions: seq<AttributeDefinition>,
    readCapacityUnits: nat,
    writeCapacityUnits: nat)

  /** `create_table`'s request: the partition key as HASH and the sort key as
      RANGE, each with its own attribute type, and 10 read and write units. */
  function TableRequest(tableName: string, partition: KeyName, sort: KeyName): (r: CreateTableRequest)
    ensures r.tableName == tableName
    ensures r.keySchema == [KeySchemaElement(partition, Primary), KeySchemaElement(sort, Sort)]
    ensures KeyTypeName(r.keySchema[0].keyType) == "HASH" && KeyTypeName(r.keySchema[1].keyType) == "RANGE"
    ensures |r.attributeDefinitions| == 2
    ensures r.attributeDefinitions[0].attributeName == partition
    ensures r.attributeDefinitions[1].attributeName == sort
    ensures r.attributeDefinitions[0].attributeType == "S" <==> partition.StrKey?
    ensures r.attributeDefinitions[1].attributeType == "S" <==> sort.StrKey?
    ensures forall d :: d in r.attributeDefinitions ==> d.attributeType in {"S", "N"}
    ensures r.readCapacityUnits == 10 && r.writeCapacityUnits == 10
  {
    CreateTableRequest(
      tableName,
      [KeySchemaElement(partition, Primary), KeySchemaElement(sort, Sort)],
      [AttributeDefinition(partition, AttributeType(partition)), AttributeDefinition(sort, AttributeType(sort))],
      10, 10)
  }
}
