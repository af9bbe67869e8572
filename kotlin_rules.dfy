/** The rule tables of the Kotlin analyzer, transcribed from
    app/src/main/java/com/tobapuw/shelltext/data/SecurityAnalyzer.kt: the three-tier pattern table `DANGEROUS_COMMANDS`
    (lines 29-358) and the explanation table `COMMAND_EXPLANATIONS`
    (lines 360-626). Every pattern is the common anchor followed by a body;
    the bodies are listed below in declaration order. */
module KotlinRules {
  import opened Issues
  import opened OrderedTable

  /** The prefix every pattern starts with: at the start of the line, or
      after a pipe. */
  const Anchor: string := "^(\\s*|.*\\|\\s*)"

  function Anchored(bodies: seq<string>): seq<string> {
    seq(|bodies|, i requires 0 <= i < |bodies| => Anchor + bodies[i])
  }

  /** HIGH tier, lines 30-113. */
  const HighBodies: seq<string> := [
    "rm -rf(?! /data/adb/\\*)\\b",
    "rm -fr(?! /data/adb/\\*)\\b",
    "rm -f(?! /data/adb/\\*)\\b",
    "rm -rf(?! /data/local/tmp/\\*)\\b",
    "rm -fr(?! /data/local/tmp/\\*)\\b",
    "rm -f(?! /data/local/tmp/\\*)\\b",
    "dd if\\b",
    "mkfs.\\b",
    "cat\\b.*(>.*|>>.*|<.*|<<.*|tee.*)",
    "grep\\b.*(>.*|>>.*|<.*|<<.*|tee.*)",
    "cp\\b.*(--remove-destination.*|-f.*)",
    "mv\\b.*(--remove-destination.*|-f.*)",
    "find\\s+/.*-exec\\s+rm\\b",
    "find\\s+/.*-delete\\b",
    "echo\\b.*\\s*[>|>>]\\s*/(etc|system|data)/",
    "base64\\s+(-d|--decode|-D)\\b",
    "b64\\s+decode\\b",
    "openssl\\s+base64\\s+-d\\b",
    "python[23]?\\s.*base64\\.b64decode\\b",
    "perl\\s.*decode_base64\\b",
    "\\bb64decode\\b",
    "base58\\s+(-d|--decode)\\b",
    "b58\\s+decode\\b",
    "python[23]?\\s.*base58\\.b58decode\\b",
    "node\\s.*\\b(?:base58|bs58)\\..*decode\\b",
    "\\bb58decode\\b",
    "\\bdecode_base58\\b",
    "xxd \\b",
    "reboot autodloader\\b",
    "echo.*>/etc/passwd\\b",
    "echo.*>/etc/shadow\\b",
    "echo.*>/etc/fstab\\b",
    "sed.*-i.*/etc/(passwd|shadow|fstab|hosts)\\b",
    "awk.*-i inplace.*/etc/(passwd|shadow|fstab|hosts)\\b",
    "setenforce 0\\b",
    "wget.*\\|.*(sh|bash|zsh|ksh)\\b",
    "curl.*\\|.*(sh|bash|zsh|ksh)\\b",
    "python.*<.*http\\b",
    "perl.*<.*http\\b",
    ";reboot\\b",
    ";shutdown\\b",
    ";halt\\b",
    ";poweroff\\b",
    "killall system_server\\b",
    "while true.*\\&\\b",
    "for.*;;.*\\&\\b",
    "while.*1.*\\&\\b",
    "until.*0.*\\&\\b",
    "yes\\b",
    "yes.*\\&\\b",
    "dd if=/dev/urandom of=/dev/sda\\b",
    "cat /dev/urandom > /dev/null\\b",
    "cat /dev/zero > /dev/null\\b",
    "nandwrite\\b",
    "sfdisk\\b",
    "parted\\b.*(rm|mkpart|resize)",
    "insmod\\b",
    "rmmod\\b",
    "modprobe\\b",
    "setprop\\b.*(secure|persist|debug)",
    "resetprop\\b",
    "losetup\\b",
    "cryptsetup\\b",
    "gdb\\b.*--batch\\b",
    "strace\\b.*-e\\s+inject",
    "stop\\b",
    "start\\b",
    "svc\\b"
  ]

  /** MEDIUM tier, lines 115-269 (`groupadd` and `groupdel` appear twice). */
  const MediumBodies: seq<string> := [
    "chmod(?!.*(77[0-7]|666|000))\\b",
    "chown\\b",
    "chgrp\\b",
    "mount\\b",
    "umount\\b",
    "ln -s\\b",
    "touch\\b",
    "rm(?! -rf| -fr)\\b",
    "(\\$\\w+\\s*){3,}\\b",
    "\\$\\w+(\\$\\w+){2,}\\b",
    "(\\$\\{\\w+\\}\\s*){3,}\\b",
    "(\\$\\(\\w+\\)\\s*){3,}\\b",
    "([\"']\\$\\w+[\"']\\s*){3,}\\b",
    "useradd\\b",
    "userdel\\b",
    "groupadd\\b",
    "groupdel\\b",
    "passwd\\b",
    "usermod\\b",
    "su\\b",
    "sudo\\b",
    "adb root\\b",
    "adb remount\\b",
    "chmod\\b.*(777|775|000|666)\\b",
    "\\bchmod\\b.*000.*(\\/system\\/|\\/data\\/|\\/vendor\\/)",
    ".*\\/tmp\\/.*\\b",
    ".*\\/var\\/tmp\\/.*\\b",
    ".*\\/dev\\/shm\\/.*\\b",
    "wget(?!.*\\|.*(sh|bash|zsh|ksh))\\b",
    "curl(?!.*\\|.*(sh|bash|zsh|ksh))\\b",
    "nc\\b",
    "netcat\\b",
    "ncat\\b",
    "telnet\\b",
    "ftp\\b",
    "ssh\\b",
    "scp\\b",
    "rsync\\b",
    "kill\\b",
    "pkill\\b",
    "killall\\b",
    "nice\\b",
    "renice\\b",
    "uname\\b",
    "whoami\\b",
    "id\\b",
    "groups\\b",
    "env\\b",
    "printenv\\b",
    "ps\\b",
    "top\\b",
    "htop\\b",
    "mkdir\\b",
    "rmdir\\b",
    "ln\\b",
    "sed\\b",
    "awk\\b",
    "grep\\b",
    "egrep\\b",
    "fgrep\\b",
    "cut\\b",
    "sort\\b",
    "uniq\\b",
    "wc\\b",
    "head\\b",
    "tail\\b",
    "tar\\b",
    "gzip\\b",
    "gunzip\\b",
    "zip\\b",
    "unzip\\b",
    "7z\\b",
    "apt\\b",
    "apt-get\\b",
    "yum\\b",
    "dnf\\b",
    "pacman\\b",
    "zypper\\b",
    "systemctl\\b",
    "service\\b",
    "initctl\\b",
    "groupadd\\b",
    "groupdel\\b",
    "groupmod\\b",
    "date\\b",
    "ntpdate\\b",
    "logrotate\\b",
    "journalctl\\b",
    "iptables\\b",
    "ufw\\b",
    "firewall-cmd\\b",
    "reboot\\b",
    "shutdown\\b",
    "halt\\b",
    "poweroff\\b",
    "reboot recovery\\b",
    "reboot bootloader\\b",
    "pm uninstall\\b",
    "am start\\b",
    "adb install\\b",
    "adb uninstall\\b",
    "dumpsys\\b",
    "getprop\\b",
    "pm list\\b.*(granted|permission)",
    "ip\\b.*(route|link|addr)",
    "ndc\\b",
    "settings\\b.*(global|system)",
    "wm\\b",
    "pm\\b.*(grant|revoke|set-installer)",
    "cmd\\b.*(package|activity)",
    "logcat\\b",
    "dmesg\\b"
  ]

  /** LOW tier, lines 271-357. */
  const LowBodies: seq<string> := [
    "ls\\b",
    "dir\\b",
    "pwd\\b",
    "cd\\b",
    "cat\\b(?!.*[>|>>|<|<<|tee])",
    "more\\b",
    "less\\b",
    "view\\b",
    "df\\b",
    "du\\b",
    "free\\b",
    "uptime\\b",
    "w\\b",
    "who\\b",
    "last\\b",
    "lastlog\\b",
    "ifconfig\\b",
    "ip\\b",
    "route\\b",
    "netstat\\b",
    "ss\\b",
    "ping\\b",
    "ping6\\b",
    "traceroute\\b",
    "tracepath\\b",
    "nslookup\\b",
    "dig\\b",
    "host\\b",
    "lscpu\\b",
    "lspci\\b",
    "lsusb\\b",
    "lshw\\b",
    "dmidecode\\b",
    "fdisk\\b",
    "blkid\\b",
    "lsblk\\b",
    "echo\\b(?!.*[>|>>])",
    "printf\\b",
    "tr\\b",
    "rev\\b",
    "fold\\b",
    "fmt\\b",
    "nl\\b",
    "tac\\b",
    "bc\\b",
    "dc\\b",
    "expr\\b",
    "let\\b",
    "cal\\b",
    "sleep\\b",
    "timeout\\b",
    "hwclock\\b",
    "timedatectl\\b",
    "clear\\b",
    "reset\\b",
    "tput\\b",
    "stty\\b",
    "tty\\b",
    "which\\b",
    "whereis\\b",
    "type\\b",
    "hash\\b",
    "alias\\b",
    "unalias\\b",
    "history\\b",
    "help\\b",
    "man\\b",
    "info\\b",
    "apropos\\b",
    "whatis\\b",
    "cp(?!.*--remove-destination.*|-f.*)\\b",
    "mv(?!.*--remove-destination.*|-f.*)\\b",
    "export\\b",
    "source\\b"
  ]

  /** `DANGEROUS_COMMANDS`, iterated HIGH, MEDIUM, LOW. */
  const DangerousCommands: seq<Tier> := [
    Tier(HIGH, Anchored(HighBodies)),
    Tier(MEDIUM, Anchored(MediumBodies)),
    Tier(LOW, Anchored(LowBodies))
  ]

  /** The `key to value` pairs of `COMMAND_EXPLANATIONS` as declared, duplicates
      included (lines 361-625). */
  const ExplanationDeclarations: seq<(string, string)> := [
    ("rm -rf", "高风险：递归强制删除文件或目录，极易导致数据丢失。"),
    ("rm -fr", "高风险：递归强制删除文件或目录，极易导致数据丢失。"),
    ("rm -f", "高风险：强制删除文件，可能导致重要数据丢失。"),
    ("dd if", "高风险：底层磁盘操作命令，指定输入源(if=)，可能用零填充(/dev/zero)或写入恶意二进制破坏存储设备，有些magisk模块通过刷写dtbo或其他分区来实现特殊功能，请确保模块来源可靠。"),
    ("mkfs", "高风险：格式化文件系统命令，会删除指定磁盘上的所有数据。"),
    ("cat", "高风险：配合重定向可能覆盖重要文件。"),
    ("grep", "高风险：配合重定向可能覆盖重要文件。"),
    ("cp", "高风险：强制复制可能覆盖重要文件。"),
    ("mv", "高风险：强制移动可能覆盖重要文件。"),
    ("find", "高风险：配合删除操作可能误删重要文件。"),
    ("echo", "高风险：配合重定向可能修改系统文件。"),
    ("base64", "高风险：解码可能执行恶意代码。"),
    ("b64", "高风险：解码可能执行恶意代码。"),
    ("openssl", "高风险：解码可能执行恶意代码。"),
    ("python", "高风险：可能执行恶意Python代码。"),
    ("perl", "高风险：可能执行恶意Perl代码。"),
    ("base58", "高风险：解码可能执行恶意代码。"),
    ("b58", "高风险：解码可能执行恶意代码。"),
    ("node", "高风险：可能执行恶意JavaScript代码。"),
    ("xxd", "高风险：十六进制解码可能执行恶意代码。"),
    ("reboot", "高风险：重启系统可能导致数据丢失。"),
    ("reboot autodloader", "高风险：展讯设备特有命令，有高概率擦除SPLloader导致设备永久变砖。"),
    ("sed", "高风险：修改系统文件可能导致系统不稳定。"),
    ("awk", "高风险：修改系统文件可能导致系统不稳定。"),
    ("setenforce", "高风险：禁用SELinux安全机制。"),
    ("wget", "高风险：下载并执行远程代码。"),
    ("curl", "高风险：下载并执行远程代码。"),
    ("shutdown", "高风险：关闭系统可能导致数据丢失。"),
    ("halt", "高风险：停止系统可能导致数据丢失。"),
    ("poweroff", "高风险：关闭电源可能导致数据丢失。"),
    ("killall", "高风险：杀死系统进程可能导致系统不稳定。"),
    ("killall system_server", "高风险：终止Android系统核心服务，导致系统崩溃重启。"),
    ("while", "高风险：无限循环可能导致系统资源耗尽。"),
    ("for", "高风险：无限循环可能导致系统资源耗尽。"),
    ("until", "高风险：无限循环可能导致系统资源耗尽。"),
    ("yes", "高风险：无限输出可能导致系统资源耗尽。"),
    ("nandwrite", "高风险：直接写入NAND闪存可能损坏设备。"),
    ("sfdisk", "高风险：分区操作可能损坏磁盘。"),
    ("parted", "高风险：分区操作可能损坏磁盘。"),
    ("insmod", "高风险：加载内核模块，可能引入恶意代码或导致系统崩溃。"),
    ("rmmod", "高风险：卸载内核模块可能影响系统稳定性。"),
    ("modprobe", "高风险：内核模块操作可能影响系统稳定性。"),
    ("setprop", "高风险：修改系统属性，可能破坏系统功能或降低安全性。"),
    ("resetprop", "高风险：重置系统属性可能影响系统安全。"),
    ("losetup", "高风险：设备映射操作可能影响系统安全。"),
    ("cryptsetup", "高风险：加密操作可能影响系统安全。"),
    ("gdb", "高风险：调试器可能被用于恶意目的。"),
    ("strace", "高风险：系统调用跟踪可能被用于恶意目的。"),
    ("stop", "高风险：停止系统核心服务，可能导致功能异常。"),
    ("start", "高风险：启动系统服务可能影响系统运行。"),
    ("svc", "高风险：系统服务控制可能影响系统运行。"),
    ("tee", "高风险：双向重定向命令，可同时修改文件内容和输出内容，可能被用于篡改系统文件。"),
    ("cp --remove-destination", "高风险：强制覆盖目标文件（先删除再复制），可能破坏系统关键文件。"),
    ("mv --remove-destination", "高风险：强制移动文件（先删除目标），可能导致数据丢失。"),
    ("find -exec rm", "高风险：递归查找并删除文件，可能误删系统关键路径。"),
    ("find -delete", "高风险：直接删除匹配文件，绕过安全机制。"),
    ("cd ../ && rm", "高风险：通过上级目录跳转执行删除，规避路径监控。"),
    ("echo >/etc/fstab", "高风险：覆盖文件系统挂载表，导致系统无法启动。"),
    ("sed -i /etc/hosts", "高风险：直接修改DNS解析文件，可能劫持网络流量。"),
    ("remount", "高风险：重新挂载系统分区为可写状态，为系统篡改铺路。"),
    ("setenforce 0", "高风险：使SELinux切换为宽容模式，大幅降低系统防护。"),
    ("python < http", "高风险：直接执行远程代码，极可能触发恶意脚本。"),
    (";reboot", "高风险：强制重启系统（使用命令分隔符），中断关键服务。"),
    ("while true &", "高风险：后台无限循环，耗尽CPU/内存资源。"),
    ("dd if=/dev/* of=/dev/sda", "高风险：用随机数据覆盖磁盘分区，不可逆的永久破坏存储设备。"),
    ("chmod", "中风险：更改文件权限，可能导致安全隐患。"),
    ("chown", "中风险：更改文件所有者，可能导致权限问题。"),
    ("chgrp", "中风险：更改文件组，可能导致权限问题。"),
    ("chmod.*(777|775|000|666)", "中风险：赋予文件所有人过高或过低权限，存在安全风险或导致系统故障，有些magisk模块将授予附带一些文件权限使其正常，请确保模块来源的可靠性。"),
    ("chmod.*000.*\\/system\\/|\\/data\\/|\\/vendor\\/", "中风险：恶意剥夺系统关键目录权限，导致系统无法正常运行、应用闪退。"),
    ("wget", "中风险：下载文件，需注意下载源的安全性。"),
    ("curl", "中风险：下载文件，需注意下载源的安全性。"),
    ("nc", "中风险：网络连接工具，可能被用于恶意网络活动。"),
    ("netcat", "中风险：网络连接工具，可能被用于恶意网络活动。"),
    ("ncat", "中风险：网络连接工具，可能被用于恶意网络活动。"),
    ("telnet", "中风险：远程连接工具，可能被用于恶意网络活动。"),
    ("ftp", "中风险：文件传输工具，可能被用于恶意网络活动。"),
    ("ssh", "中风险：远程连接，需注意连接目标的安全性。"),
    ("scp", "中风险：远程文件传输，需注意传输内容的安全性。"),
    ("rsync", "中风险：文件同步，需注意同步内容的安全性。"),
    ("kill", "中风险：终止进程，可能影响系统运行。"),
    ("pkill", "中风险：终止进程，可能影响系统运行。"),
    ("killall", "中风险：终止进程，可能影响系统运行。"),
    ("nice", "中风险：调整进程优先级，可能影响系统性能。"),
    ("renice", "中风险：调整进程优先级，可能影响系统性能。"),
    ("uname", "中风险：获取系统信息，可能泄露系统信息。"),
    ("whoami", "中风险：获取用户信息，可能泄露用户信息。"),
    ("id", "中风险：获取用户身份信息，可能泄露用户信息。"),
    ("groups", "中风险：获取用户组信息，可能泄露用户信息。"),
    ("env", "中风险：获取环境变量，可能泄露系统信息。"),
    ("printenv", "中风险：获取环境变量，可能泄露系统信息。"),
    ("ps", "中风险：获取进程信息，可能泄露系统信息。"),
    ("top", "中风险：获取系统资源信息，可能泄露系统信息。"),
    ("htop", "中风险：获取系统资源信息，可能泄露系统信息。"),
    ("mount", "中风险：挂载操作，可能挂载恶意设备。"),
    ("umount", "中风险：卸载操作，可能影响系统运行。"),
    ("ln -s", "中风险：创建符号链接，可能创建恶意链接。"),
    ("touch", "中风险：创建文件，可能创建不必要的文件。"),
    ("rm", "中风险：删除文件，可能删除重要文件。"),
    ("mkdir", "中风险：创建目录，可能创建不必要的目录。"),
    ("rmdir", "中风险：删除目录，可能删除重要目录。"),
    ("ln", "中风险：创建链接，可能创建恶意链接。"),
    ("sed", "中风险：文本处理，可能修改重要文件内容。"),
    ("awk", "中风险：文本处理，可能修改重要文件内容。"),
    ("grep", "中风险：文本搜索，可能泄露文件内容信息。"),
    ("egrep", "中风险：文本搜索，可能泄露文件内容信息。"),
    ("fgrep", "中风险：文本搜索，可能泄露文件内容信息。"),
    ("cut", "中风险：文本处理，可能泄露文件内容信息。"),
    ("sort", "中风险：文本排序，可能泄露文件内容信息。"),
    ("uniq", "中风险：文本去重，可能泄露文件内容信息。"),
    ("wc", "中风险：文本统计，可能泄露文件内容信息。"),
    ("head", "中风险：查看文件开头，可能泄露文件内容信息。"),
    ("tail", "中风险：查看文件结尾，可能泄露文件内容信息。"),
    ("tar", "中风险：压缩解压，可能包含恶意文件。"),
    ("gzip", "中风险：压缩解压，可能包含恶意文件。"),
    ("gunzip", "中风险：压缩解压，可能包含恶意文件。"),
    ("zip", "中风险：压缩解压，可能包含恶意文件。"),
    ("unzip", "中风险：压缩解压，可能包含恶意文件。"),
    ("7z", "中风险：压缩解压，可能包含恶意文件。"),
    ("apt", "中风险：包管理，可能安装恶意软件包。"),
    ("apt-get", "中风险：包管理，可能安装恶意软件包。"),
    ("yum", "中风险：包管理，可能安装恶意软件包。"),
    ("dnf", "中风险：包管理，可能安装恶意软件包。"),
    ("pacman", "中风险：包管理，可能安装恶意软件包。"),
    ("zypper", "中风险：包管理，可能安装恶意软件包。"),
    ("systemctl", "中风险：系统服务管理，可能影响系统服务。"),
    ("service", "中风险：系统服务管理，可能影响系统服务。"),
    ("initctl", "中风险：系统服务管理，可能影响系统服务。"),
    ("useradd", "中风险：用户管理，可能创建恶意用户。"),
    ("userdel", "中风险：用户管理，可能删除重要用户。"),
    ("groupadd", "中风险：用户组管理，可能创建恶意用户组。"),
    ("groupdel", "中风险：用户组管理，可能删除重要用户组。"),
    ("groupmod", "中风险：用户组管理，可能修改用户组权限。"),
    ("passwd", "中风险：修改用户密码，可能影响用户访问。"),
    ("usermod", "中风险：用户管理，可能修改用户权限。"),
    ("su", "中风险：获取设备最高执行权限（root权限），运行时尤为注意检查脚本全部内容。"),
    ("sudo", "中风险：以管理员权限执行命令，可能影响系统安全。"),
    ("adb root", "中风险：获取ADB root权限，可能影响系统安全。"),
    ("adb remount", "中风险：重新挂载系统分区，可能影响系统安全。"),
    ("date", "中风险：时间操作，可能修改系统时间。"),
    ("ntpdate", "中风险：时间同步，可能修改系统时间。"),
    ("logrotate", "中风险：日志管理，可能删除重要日志。"),
    ("journalctl", "中风险：日志管理，可能泄露系统日志信息。"),
    ("iptables", "中风险：防火墙管理，可能影响网络连接。"),
    ("ufw", "中风险：防火墙管理，可能影响网络连接。"),
    ("firewall-cmd", "中风险：防火墙管理，可能影响网络连接。"),
    ("reboot", "中风险：系统重启命令，在适当场景下是安全的，虽不会造成破坏，但会导致未保存的数据丢失。"),
    ("shutdown", "中风险：正常关闭系统，虽不会造成破坏，但会导致未保存的数据丢失。"),
    ("halt", "中风险：停止系统，可能导致数据丢失。"),
    ("poweroff", "中风险：关闭电源，可能导致数据丢失。"),
    ("reboot recovery", "中风险：重启到恢复模式，可能影响系统启动。"),
    ("reboot bootloader", "中风险：重启到引导加载程序，可能影响系统启动。"),
    ("pm uninstall", "中风险：卸载应用，可能删除重要应用。"),
    ("am start", "中风险：启动应用活动，可能启动恶意应用。"),
    ("adb install", "中风险：安装APK，可能安装恶意应用。"),
    ("adb uninstall", "中风险：卸载APK，可能删除重要应用。"),
    ("dumpsys", "中风险：转储系统服务信息，可能包含敏感数据。"),
    ("getprop", "中风险：读取系统属性，信息收集行为。"),
    ("pm list", "中风险：列出应用信息，可能泄露应用信息。"),
    ("ip", "中风险：网络接口配置，可能影响网络连接。"),
    ("ndc", "中风险：网络守护进程控制，可能影响网络配置。"),
    ("settings", "中风险：Android设置修改，可能影响系统配置。"),
    ("wm", "中风险：窗口管理器控制，可能影响界面显示。"),
    ("pm", "中风险：应用管理，可能影响应用权限。"),
    ("cmd", "中风险：底层包管理，可能影响系统功能。"),
    ("logcat", "中风险：查看系统日志，可能包含用户隐私信息。"),
    ("dmesg", "中风险：查看内核日志，可能包含系统信息。"),
    ("ls", "安全：列出目录内容，对设备无害。"),
    ("dir", "安全：列出目录内容，对设备无害。"),
    ("pwd", "安全：显示当前工作目录，对设备无害。"),
    ("cd", "安全：切换目录，对设备无害。"),
    ("cat", "安全：查看文件内容，对设备无害。"),
    ("more", "安全：分页查看文件内容，对设备无害。"),
    ("less", "安全：分页查看文件内容，对设备无害。"),
    ("view", "安全：查看文件内容，对设备无害。"),
    ("df", "安全：显示磁盘空间使用情况，对设备无害。"),
    ("du", "安全：显示目录大小，对设备无害。"),
    ("free", "安全：显示内存使用情况，对设备无害。"),
    ("uptime", "安全：显示系统运行时间，对设备无害。"),
    ("w", "安全：显示当前登录用户，对设备无害。"),
    ("who", "安全：显示当前登录用户，对设备无害。"),
    ("last", "安全：显示登录历史，对设备无害。"),
    ("lastlog", "安全：显示最后登录信息，对设备无害。"),
    ("ifconfig", "安全：显示网络接口信息，对设备无害。"),
    ("ip", "安全：显示网络配置信息，对设备无害。"),
    ("route", "安全：显示路由表信息，对设备无害。"),
    ("netstat", "安全：显示网络连接信息，对设备无害。"),
    ("ss", "安全：显示网络连接信息，对设备无害。"),
    ("ping", "安全：网络连通性测试，对设备无害。"),
    ("ping6", "安全：IPv6网络连通性测试，对设备无害。"),
    ("traceroute", "安全：网络路由跟踪，对设备无害。"),
    ("tracepath", "安全：网络路径跟踪，对设备无害。"),
    ("nslookup", "安全：DNS查询，对设备无害。"),
    ("dig", "安全：DNS查询，对设备无害。"),
    ("host", "安全：DNS查询，对设备无害。"),
    ("lscpu", "安全：显示CPU信息，对设备无害。"),
    ("lspci", "安全：显示PCI设备信息，对设备无害。"),
    ("lsusb", "安全：显示USB设备信息，对设备无害。"),
    ("lshw", "安全：显示硬件信息，对设备无害。"),
    ("dmidecode", "安全：显示硬件信息，对设备无害。"),
    ("fdisk", "安全：显示分区信息，对设备无害。"),
    ("blkid", "安全：显示块设备信息，对设备无害。"),
    ("lsblk", "安全：显示块设备信息，对设备无害。"),
    ("echo", "安全：输出文本，对设备无害。"),
    ("printf", "安全：格式化输出，对设备无害。"),
    ("tr", "安全：字符转换，对设备无害。"),
    ("rev", "安全：字符反转，对设备无害。"),
    ("fold", "安全：文本换行，对设备无害。"),
    ("fmt", "安全：文本格式化，对设备无害。"),
    ("nl", "安全：添加行号，对设备无害。"),
    ("tac", "安全：反向显示文件，对设备无害。"),
    ("bc", "安全：计算器，对设备无害。"),
    ("dc", "安全：计算器，对设备无害。"),
    ("expr", "安全：表达式计算，对设备无害。"),
    ("let", "安全：算术运算，对设备无害。"),
    ("cal", "安全：显示日历，对设备无害。"),
    ("sleep", "安全：延时执行，对设备无害。"),
    ("timeout", "安全：超时控制，对设备无害。"),
    ("hwclock", "安全：硬件时钟操作，对设备无害。"),
    ("timedatectl", "安全：时间日期控制，对设备无害。"),
    ("clear", "安全：清屏，对设备无害。"),
    ("reset", "安全：重置终端，对设备无害。"),
    ("tput", "安全：终端控制，对设备无害。"),
    ("stty", "安全：终端设置，对设备无害。"),
    ("tty", "安全：显示终端设备，对设备无害。"),
    ("which", "安全：查找命令位置，对设备无害。"),
    ("whereis", "安全：查找命令位置，对设备无害。"),
    ("type", "安全：显示命令类型，对设备无害。"),
    ("hash", "安全：命令缓存，对设备无害。"),
    ("alias", "安全：命令别名，对设备无害。"),
    ("unalias", "安全：删除命令别名，对设备无害。"),
    ("history", "安全：显示命令历史，对设备无害。"),
    ("help", "安全：显示帮助信息，对设备无害。"),
    ("man", "安全：显示手册页，对设备无害。"),
    ("info", "安全：显示信息页，对设备无害。"),
    ("apropos", "安全：搜索手册页，对设备无害。"),
    ("whatis", "安全：显示命令描述，对设备无害。"),
    ("cp", "安全：复制文件，无强制覆盖风险,但部分操作也需要提防，尤其是操作系统文件时。"),
    ("mv", "安全：移动文件，无强制覆盖风险，但部分操作也需要提防，尤其是操作系统文件时。"),
    ("export", "安全：设置环境变量，对设备无害。"),
    ("source", "安全：执行脚本文件，对设备无害。"),
    ("rm -rf /data/adb/*", "安全：删除Magisk模块缓存文件，属于正常清理操作。"),
    ("chmod 755", "安全：设置文件所有者具有读、写、执行权限，属于正常权限设置，如果被授予的是其他脚本或二进制脚本文件，需要对该脚本进行额外检查，有些magisk模块将授予附带一些文件权限使其正常，请确保模块来源的可靠性。"),
    ("chmod 644", "安全：设置文件所有者具有读、写权限，属于正常权限设置，如果被授予的是其他脚本或二进制脚本文件，需要对该脚本进行额外检查，有些magisk模块将授予附带一些文件权限使其正常，请确保模块来源的可靠性。"),
    ("rm -f /data/local/tmp/*", "安全：清理临时缓存文件，常见于调试脚本。"),
    ("mount -o ro /dev/sda1 /mnt", "安全：以只读模式挂载分区，无数据篡改风险。"),
    ("umount -l", "安全：延迟卸载（lazy unmount），安全解除占用。"),
    ("ln -s /sdcard/legit /data/local", "安全：创建合法路径软链接，正常功能需求。"),
    ("wget https://example.com/safe.zip", "安全：单纯下载资源（无管道执行），低风险操作。"),
    ("curl -O https://repo/file.conf", "安全：下载配置文件到当前目录，安全行为。"),
    ("adb install /sdcard/update.apk", "安全：安装本地可信APK，正常更新操作。"),
    ("pm uninstall com.spam.app", "安全：卸载用户安装的第三方应用，无系统影响。"),
    ("mkdir /data/local/tmp/logs", "安全：创建临时日志目录，调试常用操作。"),
    ("touch /data/local/tmp/.lockfile", "安全：创建临时锁文件，进程控制机制。"),
    ("chmod 750 /data/local/bin", "安全：设置目录合理权限（所有者可执行），安全授权。"),
    ("find /data/log -name \"*.old\" -delete", "安全：清理过期日志文件，系统维护行为。")
  ]

  /** The map `mapOf` builds from those declarations. */
  const CommandExplanations: seq<(string, string)> := MapOf(ExplanationDeclarations)
}
