/** The sections and parameters of the gateway's own configuration file. */
module GatewayConfig {
  import opened CText
  import opened Config

  datatype Server = Redis | Local

  datatype Field =
    | LogRank | LogFile | LogPath | LogMaxLine
    | HivePath | HiveFile | HiveTime
    | StatPath | StatFile | StatTime | SslPath | SslPassword | QpsLimit
    | Ip(server: Server) | Port(server: Server) | Idx(server: Server) | Nums(server: Server)
    | SqlIp | SqlPort | SqlUser | SqlPassword | SqlDatabase
    | Threads
    | ApiIp | ApiPort | MailIp | MailPort | MailUser | MailPassword | MailFrom | MailTo | MailSubject | MailError

  function Unsigned32(s: string): Value { Num(Atoi(s) % 0x1_0000_0000) }

  /** Ports are 16 bits wide. */
  function Unsigned16(s: string): Value { Num(Atoi(s) % 0x1_0000) }

  /** At most 128 characters are kept. */
  function Text128(s: string): Value { Text(if |s| < 128 then s else s[..128]) }

  function Rank(s: string): Value {
    Num(if s == "INFO" then 1 else if s == "WARNING" then 2 else if s == "ERROR" then 3
        else if s == "REQUIRED" then 100 else 0)
  }

  function LogTarget(key: string, v: string): Target<Field> {
    if key == "RANK" then At(LogRank, Rank(v))
    else if key == "FILE" then At(LogFile, Text(v))
    else if key == "PATH" then At(LogPath, Text(v))
    else if key == "MAXLINE" then At(LogMaxLine, Unsigned32(v))
    else Nowhere
  }

  function HiveTarget(key: string, v: string): Target<Field> {
    if key == "PATH" then At(HivePath, Text(v))
    else if key == "FILE" then At(HiveFile, Text(v))
    else if key == "TIME" then At(HiveTime, Unsigned32(v))
    else Nowhere
  }

  function StatisticsTarget(key: string, v: string): Target<Field> {
    if key == "PATH" then At(StatPath, Text(v))
    else if key == "FILE" then At(StatFile, Text(v))
    else if key == "TIME" then At(StatTime, Unsigned32(v))
    else if key == "SSLPATH" then At(SslPath, Text(v))
    else if key == "SSLPASSWORD" then At(SslPassword, Text(v))
    else if key == "APIQPSLIMIT" then At(QpsLimit, Num(Atoi(v)))
    else Nowhere
  }

  function ServerTarget(server: Server, key: string, v: string): Target<Field> {
    if key == "IP" then At(Ip(server), Text128(v))
    else if key == "PORT" then At(Port(server), Unsigned16(v))
    else if key == "IDX" then At(Idx(server), Num(Atoi(v)))
    else if key == "NUMS" then At(Nums(server), Num(Atoi(v)))
    else Nowhere
  }

  function MysqlTarget(key: string, v: string): Target<Field> {
    if key == "IP" then At(SqlIp, Text128(v))
    else if key == "PORT" then At(SqlPort, Unsigned16(v))
    else if key == "USERNAME" then At(SqlUser, Text128(v))
    else if key == "PASSWORD" then At(SqlPassword, Text128(v))
    else if key == "DBNAME" then At(SqlDatabase, Text128(v))
    else Nowhere
  }

  function MonitorTarget(key: string, v: string): Target<Field> {
    if key == "APIIP" then At(ApiIp, Text128(v))
    else if key == "APIPORT" then At(ApiPort, Unsigned16(v))
    else if key == "EMAILIP" then At(MailIp, Text128(v))
    else if key == "EMAILPORT" then At(MailPort, Unsigned16(v))
    else MailTarget(key, v)
  }

  function MailTarget(key: string, v: string): Target<Field> {
    if key == "USERNAME" then At(MailUser, Text(v))
    else if key == "PASSWORD" then At(MailPassword, Text(v))
    else if key == "FROM" then At(MailFrom, Text(v))
    else if key == "TO" then At(MailTo, Text(v))
    else if key == "SUBJECT" then At(MailSubject, Text(v))
    else if key == "ERRORMSG" then At(MailError, Text(v))
    else Nowhere
  }

  predicate Known(section: string) {
    section in {"[LOG]", "[TRAFFICHIVELOG]", "[TRAFFICSTATISTICS]", "[REDISSERVER]", "[MYSQLSERVER]", "[LOCALSERVER]",
                "[WORKTHREADS]", "[QUERYAPIS]", "[MONITORAPIINFO]"}
  }

  function TargetOf(section: string, key: string, v: string): Target<Field> {
    if section == "[LOG]" then LogTarget(key, v)
    else if section == "[TRAFFICHIVELOG]" then HiveTarget(key, v)
    else if section == "[TRAFFICSTATISTICS]" then StatisticsTarget(key, v)
    else if section == "[REDISSERVER]" then ServerTarget(Redis, key, v)
    else if section == "[MYSQLSERVER]" then MysqlTarget(key, v)
    else if section == "[LOCALSERVER]" then ServerTarget(Local, key, v)
    else if section == "[WORKTHREADS]" then if key == "NUM" then At(Threads, Unsigned32(v)) else Nowhere
    else if section == "[MONITORAPIINFO]" then MonitorTarget(key, v)
    else Nowhere
  }

  function Gateway(): Schema<Field> { Schema(Known, TargetOf) }

  // ---------------------------------------------------------------------------------------------
  // Where each parameter comes from

  function SectionOf(f: Field): string {
    match f
    case LogRank | LogFile | LogPath | LogMaxLine => "[LOG]"
    case HivePath | HiveFile | HiveTime => "[TRAFFICHIVELOG]"
    case StatPath | StatFile | StatTime | SslPath | SslPassword | QpsLimit => "[TRAFFICSTATISTICS]"
    case Ip(s) => ServerSection(s)
    case Port(s) => ServerSection(s)
    case Idx(s) => ServerSection(s)
    case Nums(s) => ServerSection(s)
    case SqlIp | SqlPort | SqlUser | SqlPassword | SqlDatabase => "[MYSQLSERVER]"
    case Threads => "[WORKTHREADS]"
    case _ => "[MONITORAPIINFO]"
  }

  function ServerSection(s: Server): string { if s == Redis then "[REDISSERVER]" else "[LOCALSERVER]" }

  function KeyOf(f: Field): string {
    match f
    case LogRank => "RANK"
    case LogFile | HiveFile | StatFile => "FILE"
    case LogPath | HivePath | StatPath => "PATH"
    case LogMaxLine => "MAXLINE"
    case HiveTime | StatTime => "TIME"
    case SslPath => "SSLPATH"
    case SslPassword => "SSLPASSWORD"
    case QpsLimit => "APIQPSLIMIT"
    case Ip(_) => "IP"
    case SqlIp => "IP"
    case Port(_) => "PORT"
    case SqlPort => "PORT"
    case Idx(_) => "IDX"
    case Nums(_) => "NUMS"
    case SqlUser | MailUser => "USERNAME"
    case SqlPassword | MailPassword => "PASSWORD"
    case SqlDatabase => "DBNAME"
    case Threads => "NUM"
    case ApiIp => "APIIP"
    case ApiPort => "APIPORT"
    case MailIp => "EMAILIP"
    case MailPort => "EMAILPORT"
    case MailFrom => "FROM"
    case MailTo => "TO"
    case MailSubject => "SUBJECT"
    case MailError => "ERRORMSG"
  }

  predicate From(t: Target<Field>, section: string, key: string) {
    t.At? ==> SectionOf(t.field) == section && KeyOf(t.field) == key
  }

  lemma LogPlaces(key: string, v: string)
    ensures From(LogTarget(key, v), "[LOG]", key)
  {
  }

  lemma HivePlaces(key: string, v: string)
    ensures From(HiveTarget(key, v), "[TRAFFICHIVELOG]", key)
  {
  }

  lemma StatisticsPlaces(key: string, v: string)
    ensures From(StatisticsTarget(key, v), "[TRAFFICSTATISTICS]", key)
  {
  }

  lemma MysqlPlaces(key: string, v: string)
    ensures From(MysqlTarget(key, v), "[MYSQLSERVER]", key)
  {
  }

  lemma MailPlaces(key: string, v: string)
    ensures From(MailTarget(key, v), "[MONITORAPIINFO]", key)
  {
  }

  lemma MonitorPlaces(key: string, v: string)
    ensures From(MonitorTarget(key, v), "[MONITORAPIINFO]", key)
  {
    MailPlaces(key, v);
  }

  lemma ServerPlaces(server: Server, key: string, v: string)
    ensures From(ServerTarget(server, key, v), ServerSection(server), key)
  {
  }

  /** Every parameter has one place in the file: no other section or key reaches it. */
  lemma OnePlace(section: string, key: string, v: string)
    ensures From(TargetOf(section, key, v), section, key)
  {
    LogPlaces(key, v);
    HivePlaces(key, v);
    StatisticsPlaces(key, v);
    ServerPlaces(Redis, key, v);
    ServerPlaces(Local, key, v);
    MysqlPlaces(key, v);
    MonitorPlaces(key, v);
  }

  // ---------------------------------------------------------------------------------------------
  // The other direction: the key of a parameter under its section does reach it

  /** How a parameter's text is converted. */
  function ValueOf(f: Field, v: string): Value {
    match f
    case LogRank => Rank(v)
    case LogMaxLine | HiveTime | StatTime | Threads => Unsigned32(v)
    case QpsLimit => Num(Atoi(v))
    case Ip(_) => Text128(v)
    case Port(_) => Unsigned16(v)
    case Idx(_) => Num(Atoi(v))
    case Nums(_) => Num(Atoi(v))
    case SqlIp | SqlUser | SqlPassword | SqlDatabase | ApiIp | MailIp => Text128(v)
    case SqlPort | ApiPort | MailPort => Unsigned16(v)
    case _ => Text(v)
  }

  predicate Reaches(t: Target<Field>, f: Field, v: string) { t == At(f, ValueOf(f, v)) }

  lemma LogReaches(f: Field, v: string)
    requires f.LogRank? || f.LogFile? || f.LogPath? || f.LogMaxLine?
    ensures Reaches(LogTarget(KeyOf(f), v), f, v)
  {
  }

  lemma HiveReaches(f: Field, v: string)
    requires f.HivePath? || f.HiveFile? || f.HiveTime?
    ensures Reaches(HiveTarget(KeyOf(f), v), f, v)
  {
  }

  lemma StatisticsReaches(f: Field, v: string)
    requires f.StatPath? || f.StatFile? || f.StatTime? || f.SslPath? || f.SslPassword? || f.QpsLimit?
    ensures Reaches(StatisticsTarget(KeyOf(f), v), f, v)
  {
  }

  lemma ServerReaches(f: Field, v: string)
    requires f.Ip? || f.Port? || f.Idx? || f.Nums?
    ensures Reaches(ServerTarget(f.server, KeyOf(f), v), f, v)
  {
  }

  lemma MysqlReaches(f: Field, v: string)
    requires f.SqlIp? || f.SqlPort? || f.SqlUser? || f.SqlPassword? || f.SqlDatabase?
    ensures Reaches(MysqlTarget(KeyOf(f), v), f, v)
  {
  }

  lemma MailReaches(f: Field, v: string)
    requires f.MailUser? || f.MailPassword? || f.MailFrom? || f.MailTo? || f.MailSubject? || f.MailError?
    ensures Reaches(MailTarget(KeyOf(f), v), f, v)
  {
  }

  lemma MailKeysAreMail(f: Field, v: string)
    requires f.MailUser? || f.MailPassword? || f.MailFrom? || f.MailTo? || f.MailSubject? || f.MailError?
    ensures MonitorTarget(KeyOf(f), v) == MailTarget(KeyOf(f), v)
  {
  }

  lemma MonitorReaches(f: Field, v: string)
    requires f.ApiIp? || f.ApiPort? || f.MailIp? || f.MailPort?
    ensures Reaches(MonitorTarget(KeyOf(f), v), f, v)
  {
  }

  predicate IsFile(f: Field) {
    || f.LogRank? || f.LogFile? || f.LogPath? || f.LogMaxLine? || f.HivePath? || f.HiveFile? || f.HiveTime?
    || f.StatPath? || f.StatFile? || f.StatTime? || f.SslPath? || f.SslPassword? || f.QpsLimit?
  }

  predicate IsServer(f: Field) {
    || f.Ip? || f.Port? || f.Idx? || f.Nums? || f.SqlIp? || f.SqlPort? || f.SqlUser? || f.SqlPassword? || f.SqlDatabase?
  }

  lemma FileKeyReaches(f: Field, v: string)
    requires IsFile(f)
    ensures Reaches(TargetOf(SectionOf(f), KeyOf(f), v), f, v)
  {
    match f
    case LogRank | LogFile | LogPath | LogMaxLine => LogReaches(f, v);
    case HivePath | HiveFile | HiveTime => HiveReaches(f, v);
    case _ => StatisticsReaches(f, v);
  }

  lemma ServerKeyReaches(f: Field, v: string)
    requires IsServer(f)
    ensures Reaches(TargetOf(SectionOf(f), KeyOf(f), v), f, v)
  {
    if f.Ip? || f.Port? || f.Idx? || f.Nums? { ServerReaches(f, v); } else { MysqlReaches(f, v); }
  }

  lemma KeyReaches(f: Field, v: string)
    ensures Reaches(TargetOf(SectionOf(f), KeyOf(f), v), f, v)
  {
    if IsFile(f) {
      FileKeyReaches(f, v);
    } else if IsServer(f) {
      ServerKeyReaches(f, v);
    } else if f.ApiIp? || f.ApiPort? || f.MailIp? || f.MailPort? {
      MonitorReaches(f, v);
    } else if !f.Threads? {
      MailReaches(f, v);
      MailKeysAreMail(f, v);
    }
  }

  /** A setting gives `f` a value exactly when its key is the key of `f` and stands under the section of `f`;
      the value is then the converted text. */
  lemma TargetIff(section: string, key: string, v: string, f: Field)
    ensures (TargetOf(section, key, v).At? && TargetOf(section, key, v).field == f)
            <==> section == SectionOf(f) && key == KeyOf(f)
    ensures section == SectionOf(f) && key == KeyOf(f) ==> TargetOf(section, key, v) == At(f, ValueOf(f, v))
  {
    OnePlace(section, key, v);
    KeyReaches(f, v);
  }
}
